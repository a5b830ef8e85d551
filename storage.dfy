/**
 * The preset store on top of the browser's local storage.
 *
 * Local storage is a map from keys to items plus the order in which `key(i)`
 * enumerates the keys: a new key goes to the end, rewriting a key keeps its place,
 * removing a key closes the gap. Each operation of the store is first a function
 * from the old contents to the new (`After...`), about which the lemmas speak; the
 * class `PresetStore` then performs it step by step on its fields and is proved to
 * end in that state.
 */
module Storage {
  import opened Wrappers
  import opened PresetKeys

  /** The two settings a preset holds. */
  datatype Controls = Controls(volume: int, phase: int)

  /** A stored preset or template. */
  datatype Item = Item(title: string, controls: Controls)

  /** `DEFAULT_CONTROLS`. */
  const DefaultControls: Controls := Controls(-29, 77)

  /** The HOME item `initStorage` seeds. */
  const HomeItem: Item := Item("Home", DefaultControls)

  /** The contents of local storage. */
  datatype Store = Store(items: map<string, Item>, order: seq<string>)

  predicate Distinct(keys: seq<string>) {
    forall i, j | 0 <= i < j < |keys| :: keys[i] != keys[j]
  }

  /** The order lists every stored key exactly once. */
  ghost predicate WellFormed(s: Store) {
    (forall k :: k in s.items <==> k in s.order) && Distinct(s.order)
  }

  /** The key order with one key taken out. */
  function Without(keys: seq<string>, key: string): (r: seq<string>)
    ensures forall k :: k in r <==> k in keys && k != key
  {
    if keys == [] then []
    else (if keys[0] == key then [] else [keys[0]]) + Without(keys[1..], key)
  }

  /** Taking a key out keeps the others distinct. */
  lemma {:induction false} WithoutDistinct(keys: seq<string>, key: string)
    requires Distinct(keys)
    ensures Distinct(Without(keys, key))
  {
    if keys != [] {
      WithoutDistinct(keys[1..], key);
      var rest := Without(keys[1..], key);
      assert keys[0] !in rest by {
        assert keys[0] !in keys[1..];
      }
    }
  }

  /** `localStorage.setItem(key, item)`. */
  function AfterSet(s: Store, key: string, item: Item): Store {
    Store(s.items[key := item], if key in s.items then s.order else s.order + [key])
  }

  /** `localStorage.removeItem(key)`. */
  function AfterRemove(s: Store, key: string): Store {
    Store(s.items - {key}, Without(s.order, key))
  }

  /** Setting an item keeps the order in step with the items. */
  lemma SetWellFormed(s: Store, key: string, item: Item)
    requires WellFormed(s)
    ensures WellFormed(AfterSet(s, key, item))
  {
  }

  /** Removing an item keeps the order in step with the items. */
  lemma RemoveWellFormed(s: Store, key: string)
    requires WellFormed(s)
    ensures WellFormed(AfterRemove(s, key))
  {
    WithoutDistinct(s.order, key);
  }

  /** `storage.get(key)`: nothing for a falsy key, otherwise the stored item if there is one. */
  function Get(s: Store, key: Option<string>): (r: Option<Item>)
    ensures r.Some? <==> key.Some? && key.value != "" && key.value in s.items
    ensures r.Some? ==> r.value == s.items[key.value]
  {
    if key.None? || key.value == "" then None
    else if key.value in s.items then Some(s.items[key.value])
    else None
  }

  /** `getHome()`: the HOME item, if stored. */
  function GetHome(s: Store): (r: Option<Item>)
    ensures r.Some? <==> HomeKey in s.items
    ensures r.Some? ==> r.value == s.items[HomeKey]
  {
    Get(s, Some(HomeKey))
  }

  /** `initStorage()`: seeds HOME with the default controls when it is missing. */
  function AfterInit(s: Store): (r: Store)
    ensures HomeKey in r.items
    ensures HomeKey in s.items ==> r == s
    ensures HomeKey !in s.items ==> r.items == s.items[HomeKey := HomeItem]
  {
    if Get(s, Some(HomeKey)).Some? then s else AfterSet(s, HomeKey, HomeItem)
  }

  /** One row of the resolution chain: the kind, its key (if derivable) and the item stored there. */
  datatype Entry = Entry(kind: Kind, key: Option<string>, item: Option<Item>)

  /** What `getPresetFromPlaying` returns: the preset in effect and the chain it was picked from. */
  datatype Resolution = Resolution(active: Entry, chain: seq<Entry>)

  /** The order in which presets are consulted, narrowest first. */
  const Hierarchy: seq<Kind> := [TRACK, RELEASE, ARTIST, GENRE]

  /** The chain entry of one kind. */
  function ChainEntry(s: Store, kind: Kind, p: Playing): Entry
    requires HasBuilder(kind)
  {
    var key := BuildKey(kind, p);
    Entry(kind, key, Get(s, key))
  }

  /** `c.key && c.item`: the entry has a key and a stored item. */
  predicate Found(e: Entry) {
    e.key.Some? && e.key.value != "" && e.item.Some?
  }

  /** `chain.find(...)`: the first entry that is found. */
  function Find(chain: seq<Entry>): (r: Option<Entry>)
    ensures r.None? <==> forall i | 0 <= i < |chain| :: !Found(chain[i])
    ensures r.Some? ==> exists i | 0 <= i < |chain| :: chain[i] == r.value && Found(chain[i])
                          && forall j | 0 <= j < i :: !Found(chain[j])
  {
    if chain == [] then None
    else if Found(chain[0]) then Some(chain[0])
    else
      var r := Find(chain[1..]);
      assert forall i | 1 <= i < |chain| :: chain[i] == chain[1..][i - 1];
      r
  }

  /** `find` returns the entry at the first index that is found. */
  lemma {:induction false} FindFirst(chain: seq<Entry>, i: nat)
    requires i < |chain| && Found(chain[i])
    requires forall j | 0 <= j < i :: !Found(chain[j])
    ensures Find(chain) == Some(chain[i])
  {
    if i > 0 {
      FindFirst(chain[1..], i - 1);
    }
  }

  /** The HOME entry. */
  function HomeEntry(s: Store): Entry {
    Entry(HOME, Some(HomeKey), GetHome(s))
  }

  /**
   * `getPresetFromPlaying(playing)`: with nothing playing, HOME and an empty chain;
   * otherwise the chain of TRACK, RELEASE, ARTIST and GENRE entries, and the first of
   * them that is found, else HOME.
   */
  function GetPresetFromPlaying(s: Store, playing: Option<Playing>): (r: Resolution)
    ensures playing.None? ==> r == Resolution(HomeEntry(s), [])
    ensures playing.Some? ==>
              |r.chain| == |Hierarchy| && forall i | 0 <= i < |Hierarchy| :: r.chain[i] == ChainEntry(s, Hierarchy[i], playing.value)
    ensures r.active == HomeEntry(s) || (r.active in r.chain && Found(r.active))
    ensures playing.Some? && (forall i | 0 <= i < |r.chain| :: !Found(r.chain[i])) ==> r.active == HomeEntry(s)
    ensures playing.Some? ==>
              forall i | 0 <= i < |r.chain| && Found(r.chain[i]) && (forall j | 0 <= j < i :: !Found(r.chain[j])) :: r.active == r.chain[i]
  {
    if playing.None? then Resolution(HomeEntry(s), [])
    else
      var p := playing.value;
      var chain := [ChainEntry(s, TRACK, p), ChainEntry(s, RELEASE, p), ChainEntry(s, ARTIST, p), ChainEntry(s, GENRE, p)];
      Resolution(match Find(chain) case Some(e) => e case None => HomeEntry(s), chain)
  }

  /** The keys `setPresetFromPlaying` clears before saving: the narrower presets that would shadow it. */
  function RemoveKeys(kind: Kind, p: Playing): seq<Option<string>> {
    if kind == RELEASE then [BuildKey(TRACK, p)]
    else if kind == ARTIST then [BuildKey(TRACK, p), BuildKey(RELEASE, p)]
    else []
  }

  /** The keys `deletePresetsFromPlaying` clears: every derivable key of the hierarchy. */
  function HierarchyKeys(p: Playing): seq<Option<string>> {
    [BuildKey(TRACK, p), BuildKey(RELEASE, p), BuildKey(ARTIST, p), BuildKey(GENRE, p)]
  }

  /** The keys among `keys` that are present and truthy. */
  function KeySet(keys: seq<Option<string>>): set<string> {
    set i | 0 <= i < |keys| && keys[i].Some? && keys[i].value != "" :: keys[i].value
  }

  /** `removeKey && storage.remove(removeKey)`. */
  function AfterRemoveIfKey(s: Store, key: Option<string>): Store {
    if key.Some? && key.value != "" then AfterRemove(s, key.value) else s
  }

  /** The removals of a `forEach` over `keys`, in order. */
  function AfterRemoveAll(s: Store, keys: seq<Option<string>>): Store {
    if keys == [] then s else AfterRemoveIfKey(AfterRemoveAll(s, keys[..|keys| - 1]), keys[|keys| - 1])
  }

  /**
   * `setPresetFromPlaying`: fails for TEMPLATE and for a kind whose key cannot be
   * derived; otherwise clears the shadowing keys and stores `{title: key, controls}`.
   */
  function AfterSetPreset(s: Store, kind: Kind, p: Playing, controls: Controls): (r: Result<Store, string>)
    ensures kind == TEMPLATE ==> r == Failure("Unknown type: TEMPLATE")
    ensures kind != TEMPLATE && BuildKey(kind, p).None? ==> r == Failure("Could not generate key for type: " + KindName(kind))
    ensures r.Success? <==> kind != TEMPLATE && BuildKey(kind, p).Some?
  {
    match SelectKey(kind, p)
    case Failure(e) => Failure(e)
    case Success(key) =>
      if key.None? || key.value == "" then Failure("Could not generate key for type: " + KindName(kind))
      else Success(AfterSet(AfterRemoveAll(s, RemoveKeys(kind, p)), key.value, Item(key.value, controls)))
  }

  /** `deletePresetsFromPlaying`. */
  function AfterDeletePresets(s: Store, p: Playing): (r: Store)
    ensures r.items == s.items - KeySet(HierarchyKeys(p))
  {
    RemoveAllItems(s, HierarchyKeys(p));
    AfterRemoveAll(s, HierarchyKeys(p))
  }

  /** `saveTemplate`: fails on an empty name, otherwise stores `{title: name, controls}` under the template key. */
  function AfterSaveTemplate(s: Store, name: string, controls: Controls): (r: Result<Store, string>)
    ensures r.Failure? <==> name == ""
    ensures r.Failure? ==> r.error == "Template name is required"
  {
    if name == "" then Failure("Template name is required")
    else Success(AfterSet(s, TemplateKey(name), Item(name, controls)))
  }

  /** `getTemplate`: the controls stored under the template key, if any. */
  function GetTemplate(s: Store, name: string): (r: Option<Controls>)
    ensures r.Some? <==> TemplateKey(name) in s.items
    ensures r.Some? ==> r.value == s.items[TemplateKey(name)].controls
  {
    match Get(s, Some(TemplateKey(name)))
    case Some(item) => Some(item.controls)
    case None => None
  }

  /** `deleteTemplate`. */
  function AfterDeleteTemplate(s: Store, name: string): (r: Store)
    ensures r.items == s.items - {TemplateKey(name)}
    ensures forall k :: k in r.order <==> k in s.order && k != TemplateKey(name)
  {
    AfterRemove(s, TemplateKey(name))
  }

  /** `getAllTemplates`: the names listed for the stored keys, in key order. */
  function AllTemplateNames(s: Store): (r: seq<string>)
    ensures forall k | k in s.order && ListedName(k).Some? :: ListedName(k).value in r
    ensures forall name | name in r :: exists k | k in s.order :: StartsWith(k, TemplatePrefix) && ListedName(k) == Some(name)
  {
    ListedNames(s.order)
  }

  /** The removals of a `forEach` take out exactly the truthy keys listed. */
  lemma {:induction false} RemoveAllItems(s: Store, keys: seq<Option<string>>)
    ensures AfterRemoveAll(s, keys).items == s.items - KeySet(keys)
  {
    if keys != [] {
      var front := keys[..|keys| - 1];
      RemoveAllItems(s, front);
      var last := keys[|keys| - 1];
      forall k
        ensures k in KeySet(keys) <==> k in KeySet(front) || (last.Some? && last.value != "" && k == last.value)
      {
        if k in KeySet(keys) {
          var i :| 0 <= i < |keys| && keys[i].Some? && keys[i].value != "" && keys[i].value == k;
          if i < |front| {
            assert front[i] == keys[i];
          }
        }
        if k in KeySet(front) {
          var i :| 0 <= i < |front| && front[i].Some? && front[i].value != "" && front[i].value == k;
          assert keys[i] == front[i];
        }
      }
    }
  }

  /** The removals keep the order in step with the items. */
  lemma {:induction false} RemoveAllWellFormed(s: Store, keys: seq<Option<string>>)
    requires WellFormed(s)
    ensures WellFormed(AfterRemoveAll(s, keys))
  {
    if keys != [] {
      var front := keys[..|keys| - 1];
      RemoveAllWellFormed(s, front);
      var last := keys[|keys| - 1];
      if last.Some? && last.value != "" {
        RemoveWellFormed(AfterRemoveAll(s, front), last.value);
      }
    }
  }

  /** After `initStorage` HOME is stored: the item that was there, else the default one. */
  lemma InitSeedsHome(s: Store)
    ensures GetHome(AfterInit(s)) == Some(if HomeKey in s.items then s.items[HomeKey] else HomeItem)
  {
  }

  /** `initStorage` touches no key but HOME. */
  lemma InitOnlyHome(s: Store, k: string)
    requires k != HomeKey
    ensures k in AfterInit(s).items <==> k in s.items
    ensures k in s.items ==> AfterInit(s).items[k] == s.items[k]
  {
  }

  /** Running `initStorage` twice is the same as running it once. */
  lemma InitIdempotent(s: Store)
    ensures AfterInit(AfterInit(s)) == AfterInit(s)
  {
  }

  /** The preset key `setPresetFromPlaying` writes is never among the keys it clears. */
  lemma SavedKeyNotRemoved(kind: Kind, p: Playing)
    requires HasBuilder(kind) && BuildKey(kind, p).Some?
    ensures BuildKey(kind, p).value !in KeySet(RemoveKeys(kind, p))
  {
    if kind == RELEASE {
      KeysOfDistinctKinds(RELEASE, p, TRACK, p);
    } else if kind == ARTIST {
      KeysOfDistinctKinds(ARTIST, p, TRACK, p);
      if BuildKey(RELEASE, p).Some? {
        KeysOfDistinctKinds(ARTIST, p, RELEASE, p);
      }
    }
  }

  /** A successful `setPresetFromPlaying` stores `{title: key, controls}` under the preset's key. */
  lemma SetPresetStores(s: Store, kind: Kind, p: Playing, controls: Controls)
    requires AfterSetPreset(s, kind, p, controls).Success?
    ensures Get(AfterSetPreset(s, kind, p, controls).value, BuildKey(kind, p))
         == Some(Item(BuildKey(kind, p).value, controls))
  {
  }

  /** A successful `setPresetFromPlaying` clears the shadowing keys. */
  lemma SetPresetClears(s: Store, kind: Kind, p: Playing, controls: Controls, k: string)
    requires AfterSetPreset(s, kind, p, controls).Success?
    requires k in KeySet(RemoveKeys(kind, p))
    ensures k !in AfterSetPreset(s, kind, p, controls).value.items
  {
    SavedKeyNotRemoved(kind, p);
    RemoveAllItems(s, RemoveKeys(kind, p));
  }

  /** A successful `setPresetFromPlaying` changes no other key. */
  lemma SetPresetFrame(s: Store, kind: Kind, p: Playing, controls: Controls, k: string)
    requires AfterSetPreset(s, kind, p, controls).Success?
    requires k != BuildKey(kind, p).value && k !in KeySet(RemoveKeys(kind, p))
    ensures k in AfterSetPreset(s, kind, p, controls).value.items <==> k in s.items
    ensures k in s.items ==> AfterSetPreset(s, kind, p, controls).value.items[k] == s.items[k]
  {
    RemoveAllItems(s, RemoveKeys(kind, p));
  }

  /** After saving a TRACK, RELEASE or ARTIST preset, resolving the same playing item picks exactly that preset. */
  lemma SaveThenResolve(s: Store, kind: Kind, p: Playing, controls: Controls)
    requires kind == TRACK || kind == RELEASE || kind == ARTIST
    requires AfterSetPreset(s, kind, p, controls).Success?
    ensures GetPresetFromPlaying(AfterSetPreset(s, kind, p, controls).value, Some(p)).active
         == Entry(kind, BuildKey(kind, p), Some(Item(BuildKey(kind, p).value, controls)))
  {
    var t := AfterSetPreset(s, kind, p, controls).value;
    var chain := GetPresetFromPlaying(t, Some(p)).chain;
    SetPresetStores(s, kind, p, controls);
    var removed := RemoveKeys(kind, p);
    if kind == RELEASE {
      assert removed[0] == BuildKey(TRACK, p);
      SetPresetClears(s, kind, p, controls, BuildKey(TRACK, p).value);
      assert !Found(chain[0]);
      FindFirst(chain, 1);
    } else if kind == ARTIST {
      assert removed[0] == BuildKey(TRACK, p) && removed[1] == BuildKey(RELEASE, p);
      SetPresetClears(s, kind, p, controls, BuildKey(TRACK, p).value);
      if BuildKey(RELEASE, p).Some? {
        SetPresetClears(s, kind, p, controls, BuildKey(RELEASE, p).value);
      }
      assert !Found(chain[0]) && !Found(chain[1]);
      FindFirst(chain, 2);
    } else {
      FindFirst(chain, 0);
    }
  }

  /** `deletePresetsFromPlaying` leaves HOME alone. */
  lemma DeleteKeepsHome(s: Store, p: Playing)
    ensures GetHome(AfterDeletePresets(s, p)) == GetHome(s)
  {
    forall kind | kind in Hierarchy
      ensures BuildKey(kind, p).Some? ==> BuildKey(kind, p).value != HomeKey
    {
      if BuildKey(kind, p).Some? {
        KeysOfDistinctKinds(kind, p, HOME, p);
      }
    }
    assert HomeKey !in KeySet(HierarchyKeys(p));
  }

  /** `deletePresetsFromPlaying` leaves every template alone. */
  lemma DeleteKeepsTemplates(s: Store, p: Playing, name: string)
    ensures GetTemplate(AfterDeletePresets(s, p), name) == GetTemplate(s, name)
  {
    forall kind | kind in Hierarchy
      ensures BuildKey(kind, p).Some? ==> BuildKey(kind, p).value != TemplateKey(name)
    {
      if BuildKey(kind, p).Some? {
        PresetKeyIsNoTemplateKey(kind, p, name);
      }
    }
    assert TemplateKey(name) !in KeySet(HierarchyKeys(p));
  }

  /** A hierarchy kind whose key is not stored gives a chain entry that is not found. */
  lemma UnstoredNotFound(t: Store, kind: Kind, p: Playing)
    requires kind in Hierarchy
    requires BuildKey(kind, p).Some? ==> BuildKey(kind, p).value !in t.items
    ensures !Found(ChainEntry(t, kind, p))
  {
  }

  /** After `deletePresetsFromPlaying`, no key of the hierarchy is stored. */
  lemma DeletedKeyGone(s: Store, p: Playing, i: nat)
    requires i < |Hierarchy|
    ensures BuildKey(Hierarchy[i], p).Some? ==> BuildKey(Hierarchy[i], p).value !in AfterDeletePresets(s, p).items
  {
    var keys := HierarchyKeys(p);
    assert keys[i] == BuildKey(Hierarchy[i], p);
    if keys[i].Some? {
      assert keys[i].value in KeySet(keys);
    }
  }

  /** After `deletePresetsFromPlaying`, resolving the same playing item falls back to HOME. */
  lemma DeleteThenResolve(s: Store, p: Playing)
    ensures GetPresetFromPlaying(AfterDeletePresets(s, p), Some(p)).active == HomeEntry(AfterDeletePresets(s, p))
  {
    var t := AfterDeletePresets(s, p);
    var chain := GetPresetFromPlaying(t, Some(p)).chain;
    forall i | 0 <= i < |chain|
      ensures !Found(chain[i])
    {
      DeletedKeyGone(s, p, i);
      UnstoredNotFound(t, Hierarchy[i], p);
    }
  }

  /** A successful `setPresetFromPlaying` never removes HOME: it clears only TRACK and RELEASE keys. */
  lemma SetPresetKeepsHome(s: Store, kind: Kind, p: Playing, controls: Controls)
    requires HomeKey in s.items
    requires AfterSetPreset(s, kind, p, controls).Success?
    ensures HomeKey in AfterSetPreset(s, kind, p, controls).value.items
  {
    if kind != HOME {
      KeysOfDistinctKinds(kind, p, HOME, p);
      KeysOfDistinctKinds(TRACK, p, HOME, p);
      if BuildKey(RELEASE, p).Some? {
        KeysOfDistinctKinds(RELEASE, p, HOME, p);
      }
      var removed := RemoveKeys(kind, p);
      assert HomeKey !in KeySet(removed) by {
        forall i | 0 <= i < |removed|
          ensures removed[i].Some? ==> removed[i].value != HomeKey
        {
          assert removed[i] == BuildKey(TRACK, p) || removed[i] == BuildKey(RELEASE, p);
        }
      }
      SetPresetFrame(s, kind, p, controls, HomeKey);
    }
  }

  /** `deleteTemplate` never removes HOME: no template key is the HOME key. */
  lemma DeleteTemplateKeepsHome(s: Store, name: string)
    requires HomeKey in s.items
    ensures HomeKey in AfterDeleteTemplate(s, name).items
  {
    PresetKeyIsNoTemplateKey(HOME, Playing(None, None, None, None), name);
  }

  /** While HOME is stored, resolution always comes back with an item. */
  lemma ResolveNeverEmpty(s: Store, playing: Option<Playing>)
    requires HomeKey in s.items
    ensures GetPresetFromPlaying(s, playing).active.item.Some?
  {
  }

  /** After `saveTemplate(name, controls)`, `getTemplate(name)` gives those controls. */
  lemma SaveTemplateThenGet(s: Store, name: string, controls: Controls)
    requires name != ""
    ensures GetTemplate(AfterSaveTemplate(s, name, controls).value, name) == Some(controls)
  {
  }

  /** `saveTemplate` leaves every preset alone. */
  lemma SaveTemplateKeepsPresets(s: Store, name: string, controls: Controls, kind: Kind, p: Playing)
    requires name != "" && HasBuilder(kind)
    ensures Get(AfterSaveTemplate(s, name, controls).value, BuildKey(kind, p)) == Get(s, BuildKey(kind, p))
  {
    if BuildKey(kind, p).Some? {
      PresetKeyIsNoTemplateKey(kind, p, name);
    }
  }

  /** After `deleteTemplate(name)`, `getTemplate(name)` gives nothing. */
  lemma DeleteTemplateThenGet(s: Store, name: string)
    ensures GetTemplate(AfterDeleteTemplate(s, name), name) == None
  {
  }

  /** After `saveTemplate(name, ...)`, `getAllTemplates` lists the name, if it has no `<`. */
  lemma SaveTemplateListed(s: Store, name: string, controls: Controls)
    requires WellFormed(s) && name != "" && '<' !in name
    ensures name in AllTemplateNames(AfterSaveTemplate(s, name, controls).value)
  {
    var t := AfterSaveTemplate(s, name, controls).value;
    assert TemplateKey(name) in t.order;
    TemplateListed(name);
  }

  /** Local storage under the preset store, updated in place. */
  class PresetStore {
    var items: map<string, Item>
    var order: seq<string>

    /** The current contents as a value. */
    function Contents(): Store
      reads this
    {
      Store(items, order)
    }

    ghost predicate Valid()
      reads this
    {
      WellFormed(Contents())
    }

    /** Loading the module over what the browser kept: `initStorage()` runs at once. */
    constructor(persisted: Store)
      requires WellFormed(persisted)
      ensures Valid()
      ensures Contents() == AfterInit(persisted)
    {
      items := persisted.items;
      order := persisted.order;
      new;
      InitStorage();
    }

    /** `storage.set(key, item)`. */
    method Set(key: string, item: Item)
      requires Valid()
      modifies this
      ensures Valid()
      ensures Contents() == AfterSet(old(Contents()), key, item)
    {
      SetWellFormed(Contents(), key, item);
      if key !in items {
        order := order + [key];
      }
      items := items[key := item];
    }

    /** `storage.remove(key)`. */
    method Remove(key: string)
      requires Valid()
      modifies this
      ensures Valid()
      ensures Contents() == AfterRemove(old(Contents()), key)
    {
      RemoveWellFormed(Contents(), key);
      items := items - {key};
      order := Without(order, key);
    }

    /** `initStorage()`. */
    method InitStorage()
      requires Valid()
      modifies this
      ensures Valid()
      ensures Contents() == AfterInit(old(Contents()))
    {
      var home := Get(Contents(), Some(HomeKey));
      if home.None? {
        Set(HomeKey, HomeItem);
      }
    }

    /** The `forEach` of removals over `keys`. */
    method RemoveEach(keys: seq<Option<string>>)
      requires Valid()
      modifies this
      ensures Valid()
      ensures Contents() == AfterRemoveAll(old(Contents()), keys)
    {
      var i := 0;
      while i < |keys|
        invariant 0 <= i <= |keys|
        invariant Valid()
        invariant Contents() == AfterRemoveAll(old(Contents()), keys[..i])
      {
        var key := keys[i];
        if key.Some? && key.value != "" {
          Remove(key.value);
        }
        assert keys[..i + 1][..i] == keys[..i];
        i := i + 1;
      }
      assert keys[..i] == keys;
    }

    /** `setPresetFromPlaying(preset)`: a thrown error is a `Fail` outcome, and leaves the store as it was. */
    method SetPresetFromPlaying(kind: Kind, playing: Playing, controls: Controls) returns (outcome: Outcome<string>)
      requires Valid()
      modifies this
      ensures Valid()
      ensures outcome.Fail? ==> Contents() == old(Contents())
      ensures AfterSetPreset(old(Contents()), kind, playing, controls)
           == if outcome.Pass? then Success(Contents()) else Failure(outcome.error)
    {
      var selected := SelectKey(kind, playing);
      if selected.Failure? {
        return Fail(selected.error);
      }
      var key := selected.value;
      if key.None? || key.value == "" {
        return Fail("Could not generate key for type: " + KindName(kind));
      }
      RemoveEach(RemoveKeys(kind, playing));
      Set(key.value, Item(key.value, controls));
      return Pass;
    }

    /** `deletePresetsFromPlaying(playing)`. */
    method DeletePresetsFromPlaying(playing: Playing)
      requires Valid()
      modifies this
      ensures Valid()
      ensures Contents() == AfterDeletePresets(old(Contents()), playing)
    {
      RemoveEach(HierarchyKeys(playing));
    }

    /** `saveTemplate(name, controls)`: a thrown error is a `Fail` outcome, and leaves the store as it was. */
    method SaveTemplate(name: string, controls: Controls) returns (outcome: Outcome<string>)
      requires Valid()
      modifies this
      ensures Valid()
      ensures outcome.Fail? ==> Contents() == old(Contents())
      ensures AfterSaveTemplate(old(Contents()), name, controls)
           == if outcome.Pass? then Success(Contents()) else Failure(outcome.error)
    {
      if name == "" {
        return Fail("Template name is required");
      }
      Set(TemplateKey(name), Item(name, controls));
      return Pass;
    }

    /** `deleteTemplate(name)`. */
    method DeleteTemplate(name: string)
      requires Valid()
      modifies this
      ensures Valid()
      ensures Contents() == AfterDeleteTemplate(old(Contents()), name)
    {
      Remove(TemplateKey(name));
    }

    /** `getAllTemplates()`: walks the keys by index and collects the template names. */
    method GetAllTemplates() returns (templates: seq<string>)
      ensures templates == AllTemplateNames(Contents())
    {
      templates := [];
      var i := 0;
      while i < |order|
        invariant 0 <= i <= |order|
        invariant templates == ListedNames(order[..i])
      {
        var key := order[i];
        if StartsWith(key, TemplatePrefix) {
          var parts := Split(key, '<');
          if |parts| > 2 && parts[2] != "" {
            var nameWithBracket := parts[2];
            templates := templates + [nameWithBracket[..|nameWithBracket| - 1]];
          }
        }
        assert order[..i + 1][..i] == order[..i];
        i := i + 1;
      }
      assert order[..i] == order;
    }
  }
}
