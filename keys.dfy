/**
 * How preset and template keys are spelled in local storage.
 *
 * Every key is `PRESET:MUSIC<KIND>` followed by zero or more `<field>` groups: HOME
 * has none, GENRE has the genre, ARTIST the artist, RELEASE the artist and the
 * album, TRACK the artist, the album and the title, and a template its name.
 * Template literals turn a missing field into the text `undefined`; `p.album ?? ""`
 * turns a missing album into the empty string.
 */
module PresetKeys {
  import opened Wrappers

  /** The preset kinds, `TYPES` in the source. */
  datatype Kind = HOME | GENRE | ARTIST | RELEASE | TRACK | TEMPLATE

  /** What is playing; every field may be missing. */
  datatype Playing = Playing(title: Option<string>, artist: Option<string>, album: Option<string>, genre: Option<string>)

  const Base: string := "PRESET:MUSIC"

  /** The `TYPES` value of a kind, which is also its token in keys. */
  function KindName(kind: Kind): (r: string)
    ensures '>' !in r && '<' !in r && r != []
  {
    match kind
    case HOME => "HOME"
    case GENRE => "GENRE"
    case ARTIST => "ARTIST"
    case RELEASE => "RELEASE"
    case TRACK => "TRACK"
    case TEMPLATE => "TEMPLATE"
  }

  /** JavaScript truthiness of an optional string: present and not empty. */
  predicate Truthy(s: Option<string>) {
    s.Some? && s.value != ""
  }

  /** `${s}` in a template literal: a missing value prints as `undefined`. */
  function Interpolate(s: Option<string>): string {
    if s.Some? then s.value else "undefined"
  }

  /** `s ?? ""`: a missing value becomes the empty string. */
  function OrEmpty(s: Option<string>): string {
    if s.Some? then s.value else ""
  }

  /** One `<field>` group of a key. */
  function Field(s: string): string {
    "<" + s + ">"
  }

  /** `${BASE}<TOKEN>` followed by the field groups. */
  function KeyFor(token: string, fields: string): (r: string)
    ensures |r| > |Base|
  {
    Base + "<" + token + ">" + fields
  }

  /** The key of the HOME preset. */
  const HomeKey: string := KeyFor("HOME", "")

  /** Whether `KEY_BUILDERS` has an entry for the kind. */
  predicate HasBuilder(kind: Kind) {
    kind != TEMPLATE
  }

  /** `KEY_BUILDERS[kind](p)`: the key of the kind's preset for `p`, or `None` (`null`). */
  function BuildKey(kind: Kind, p: Playing): (r: Option<string>)
    requires HasBuilder(kind)
    ensures r.None? <==> (kind == GENRE && !Truthy(p.genre)) || (kind == RELEASE && !Truthy(p.album))
    ensures r.Some? ==> r.value != []
  {
    match kind
    case HOME => Some(KeyFor("HOME", ""))
    case GENRE => if Truthy(p.genre) then Some(KeyFor("GENRE", Field(p.genre.value))) else None
    case ARTIST => Some(KeyFor("ARTIST", Field(Interpolate(p.artist))))
    case RELEASE =>
      if Truthy(p.album) then Some(KeyFor("RELEASE", Field(Interpolate(p.artist)) + Field(OrEmpty(p.album)))) else None
    case TRACK => Some(KeyFor("TRACK", Field(Interpolate(p.artist)) + Field(OrEmpty(p.album)) + Field(Interpolate(p.title))))
  }

  /** Every key a builder produces starts with `PRESET:MUSIC<KIND>`. */
  lemma BuildKeyToken(kind: Kind, p: Playing)
    requires HasBuilder(kind) && BuildKey(kind, p).Some?
    ensures exists fields :: BuildKey(kind, p).value == KeyFor(KindName(kind), fields)
  {
    match kind
    case HOME =>
      assert BuildKey(kind, p).value == KeyFor(KindName(kind), "");
    case GENRE =>
      assert BuildKey(kind, p).value == KeyFor(KindName(kind), Field(p.genre.value));
    case ARTIST =>
      assert BuildKey(kind, p).value == KeyFor(KindName(kind), Field(Interpolate(p.artist)));
    case RELEASE =>
      assert BuildKey(kind, p).value == KeyFor(KindName(kind), Field(Interpolate(p.artist)) + Field(OrEmpty(p.album)));
    case TRACK =>
      assert BuildKey(kind, p).value
          == KeyFor(KindName(kind), Field(Interpolate(p.artist)) + Field(OrEmpty(p.album)) + Field(Interpolate(p.title)));
  }

  /**
   * `selectKeyFromKeyBuilders`: fails for a kind without a builder (TEMPLATE); HOME always
   * has its fixed key; GENRE and RELEASE have none exactly when the genre or album is
   * falsy; ARTIST and TRACK always have one.
   */
  function SelectKey(kind: Kind, p: Playing): (r: Result<Option<string>, string>)
    ensures r.Failure? <==> kind == TEMPLATE
    ensures r.Failure? ==> r.error == "Unknown type: TEMPLATE"
    ensures kind == HOME ==> r == Success(Some(HomeKey))
    ensures r.Success? && r.value.None? <==> (kind == GENRE && !Truthy(p.genre)) || (kind == RELEASE && !Truthy(p.album))
    ensures r.Success? && r.value.Some? ==> r.value.value != []
  {
    if !HasBuilder(kind) then Failure("Unknown type: " + KindName(kind)) else Success(BuildKey(kind, p))
  }

  /** `TEMPLATE_PREFIX`. */
  const TemplatePrefix: string := KeyFor("TEMPLATE", "")

  /** `getTemplateKey(name)`: `PRESET:MUSIC<TEMPLATE><name>`. */
  function TemplateKey(name: string): (r: string)
    ensures StartsWith(r, TemplatePrefix)
  {
    assert (TemplatePrefix + Field(name))[..|TemplatePrefix|] == TemplatePrefix;
    TemplatePrefix + Field(name)
  }

  /** `s.startsWith(prefix)`. */
  predicate StartsWith(s: string, prefix: string) {
    |prefix| <= |s| && s[..|prefix|] == prefix
  }

  /** `s.split(c)` for a one-character separator: the pieces between the separators, in order. */
  function Split(s: string, c: char): (parts: seq<string>)
    ensures |parts| >= 1
    ensures forall i | 0 <= i < |parts| :: c !in parts[i]
  {
    if s == [] then [""]
    else
      var rest := Split(s[1..], c);
      if s[0] == c then [""] + rest else [[s[0]] + rest[0]] + rest[1..]
  }

  /** The pieces joined back with the separator: the inverse of `Split`. */
  function Join(parts: seq<string>, c: char): string
    requires |parts| >= 1
  {
    if |parts| == 1 then parts[0] else parts[0] + [c] + Join(parts[1..], c)
  }

  /** `getAllTemplates` on one key: the name it lists for the key, if any. */
  function ListedName(key: string): (r: Option<string>)
    ensures r.Some? ==> StartsWith(key, TemplatePrefix)
  {
    if StartsWith(key, TemplatePrefix) then
      var parts := Split(key, '<');
      if |parts| > 2 && parts[2] != "" then Some(parts[2][..|parts[2]| - 1]) else None
    else None
  }

  /** `getAllTemplates` on a whole key order: the listed names, in key order. */
  function ListedNames(keys: seq<string>): (r: seq<string>)
    ensures forall k | k in keys && ListedName(k).Some? :: ListedName(k).value in r
    ensures forall name | name in r :: exists k | k in keys :: ListedName(k) == Some(name)
  {
    if keys == [] then []
    else
      var front := ListedNames(keys[..|keys| - 1]);
      assert keys == keys[..|keys| - 1] + [keys[|keys| - 1]];
      match ListedName(keys[|keys| - 1])
      case Some(name) => front + [name]
      case None => front
  }

  /** Splitting and joining again gives back the string. */
  lemma {:induction false} SplitJoin(s: string, c: char)
    ensures Join(Split(s, c), c) == s
  {
    if s != [] {
      SplitJoin(s[1..], c);
      var rest := Split(s[1..], c);
      if s[0] == c {
        assert s == [c] + s[1..];
      } else if |rest| == 1 {
        assert s == [s[0]] + rest[0];
      } else {
        assert s == [s[0]] + s[1..];
        assert ([s[0]] + rest[0]) + [c] + Join(rest[1..], c) == [s[0]] + (rest[0] + [c] + Join(rest[1..], c));
      }
    }
  }

  /** A string without the separator is one piece. */
  lemma {:induction false} SplitNone(s: string, c: char)
    requires c !in s
    ensures Split(s, c) == [s]
  {
    if s != [] {
      SplitNone(s[1..], c);
      assert [s[0]] + s[1..] == s;
    }
  }

  /** A separator between two strings separates their pieces. */
  lemma {:induction false} SplitAround(a: string, c: char, b: string)
    ensures Split(a + [c] + b, c) == Split(a, c) + Split(b, c)
  {
    if a == [] {
      assert a + [c] + b == [c] + b;
      assert ([c] + b)[1..] == b;
    } else {
      assert (a + [c] + b)[1..] == a[1..] + [c] + b;
      SplitAround(a[1..], c, b);
    }
  }

  /** Fields are interpolated raw, so a `><` inside one moves the boundary: two releases share a key. */
  lemma ReleaseKeysCollide()
    ensures BuildKey(RELEASE, Playing(None, Some("a><b"), Some("c"), None))
         == BuildKey(RELEASE, Playing(None, Some("a"), Some("b><c"), None))
  {
    assert Field("a><b") + Field("c") == Field("a") + Field("b><c");
  }

  /** A missing artist is spelled `undefined`, so it shares its key with the artist named "undefined". */
  lemma MissingArtistCollides()
    ensures BuildKey(ARTIST, Playing(None, None, None, None))
         == BuildKey(ARTIST, Playing(None, Some("undefined"), None, None))
  {
  }

  /** Two different separator-free tokens, each closed by `>`, never give the same string. */
  lemma TokensDiffer(u: string, x: string, v: string, y: string)
    requires '>' !in u && '>' !in v && u != v
    ensures u + ">" + x != v + ">" + y
  {
    var s, t := u + ">" + x, v + ">" + y;
    if |u| < |v| {
      assert s[|u|] == '>' && t[|u|] == v[|u|];
    } else if |v| < |u| {
      assert t[|v|] == '>' && s[|v|] == u[|v|];
    } else {
      var i :| 0 <= i < |u| && u[i] != v[i];
      assert s[i] == u[i] && t[i] == v[i];
    }
  }

  /** Keys with different tokens differ, whatever their fields. */
  lemma KeyForDiffers(u: string, x: string, v: string, y: string)
    requires '>' !in u && '>' !in v && u != v
    ensures KeyFor(u, x) != KeyFor(v, y)
  {
    TokensDiffer(u, x, v, y);
    var pre := Base + "<";
    assert KeyFor(u, x)[|pre|..] == u + ">" + x;
    assert KeyFor(v, y)[|pre|..] == v + ">" + y;
  }

  /** Preset keys of different kinds never coincide. */
  lemma KeysOfDistinctKinds(k1: Kind, p1: Playing, k2: Kind, p2: Playing)
    requires HasBuilder(k1) && HasBuilder(k2) && k1 != k2
    requires BuildKey(k1, p1).Some? && BuildKey(k2, p2).Some?
    ensures BuildKey(k1, p1).value != BuildKey(k2, p2).value
  {
    BuildKeyToken(k1, p1);
    BuildKeyToken(k2, p2);
    var x :| BuildKey(k1, p1).value == KeyFor(KindName(k1), x);
    var y :| BuildKey(k2, p2).value == KeyFor(KindName(k2), y);
    KeyForDiffers(KindName(k1), x, KindName(k2), y);
  }

  /** No preset key is a template key. */
  lemma PresetKeyIsNoTemplateKey(kind: Kind, p: Playing, name: string)
    requires HasBuilder(kind) && BuildKey(kind, p).Some?
    ensures BuildKey(kind, p).value != TemplateKey(name)
  {
    BuildKeyToken(kind, p);
    var x :| BuildKey(kind, p).value == KeyFor(KindName(kind), x);
    KeyForDiffers(KindName(kind), x, "TEMPLATE", Field(name));
    assert TemplateKey(name) == KeyFor("TEMPLATE", Field(name));
  }

  /** `getAllTemplates` never lists anything for a preset key. */
  lemma PresetKeyNotListed(kind: Kind, p: Playing)
    requires HasBuilder(kind) && BuildKey(kind, p).Some?
    ensures ListedName(BuildKey(kind, p).value) == None
  {
    var key := BuildKey(kind, p).value;
    if StartsWith(key, TemplatePrefix) {
      var rest := key[|TemplatePrefix|..];
      assert key == TemplatePrefix + rest;
      assert key == KeyFor("TEMPLATE", rest);
      BuildKeyToken(kind, p);
      var x :| key == KeyFor(KindName(kind), x);
      KeyForDiffers(KindName(kind), x, "TEMPLATE", rest);
      assert false;
    }
  }

  /** A template key is the base, `<`, `TEMPLATE>`, `<`, and the name closed by `>`. */
  lemma TemplateKeyShape(name: string)
    ensures TemplateKey(name) == "PRESET:MUSIC" + ['<'] + ("TEMPLATE>" + ['<'] + (name + ">"))
  {
  }

  /** The part of a template key after the base, split at `<`. */
  lemma TemplateTailParts(name: string)
    ensures Split("TEMPLATE>" + ['<'] + (name + ">"), '<') == ["TEMPLATE>"] + Split(name + ">", '<')
  {
    SplitAround("TEMPLATE>", '<', name + ">");
    SplitNone("TEMPLATE>", '<');
  }

  /** A template key splits at `<` into the base, `TEMPLATE>`, and the pieces of the name closed by `>`. */
  lemma TemplateKeySplit(name: string)
    ensures Split(TemplateKey(name), '<') == ["PRESET:MUSIC"] + (["TEMPLATE>"] + Split(name + ">", '<'))
  {
    TemplateKeyShape(name);
    SplitAround("PRESET:MUSIC", '<', "TEMPLATE>" + ['<'] + (name + ">"));
    SplitNone("PRESET:MUSIC", '<');
    TemplateTailParts(name);
  }

  /** How `getAllTemplates` splits a template key at `<`: the name's pieces start at index 2. */
  lemma TemplateKeyParts(name: string)
    ensures |Split(TemplateKey(name), '<')| == 2 + |Split(name + ">", '<')|
    ensures Split(TemplateKey(name), '<')[2..] == Split(name + ">", '<')
  {
    TemplateKeySplit(name);
    var pieces := Split(name + ">", '<');
    assert (["PRESET:MUSIC"] + (["TEMPLATE>"] + pieces))[2..] == pieces;
  }

  /** A template whose name has no `<` is listed under its own name. */
  lemma TemplateListed(name: string)
    requires '<' !in name
    ensures ListedName(TemplateKey(name)) == Some(name)
  {
    TemplateKeyParts(name);
    SplitNone(name + ">", '<');
    var parts := Split(TemplateKey(name), '<');
    assert parts[2] == parts[2..][0] == name + ">";
  }

  /** A name whose first `<` follows a non-empty prefix is listed as that prefix without its last character. */
  lemma TemplateNameCutAtBracket(a: string, b: string)
    requires '<' !in a && a != ""
    ensures ListedName(TemplateKey(a + ['<'] + b)) == Some(a[..|a| - 1])
  {
    var name := a + ['<'] + b;
    TemplateKeyParts(name);
    assert name + ">" == a + ['<'] + (b + ">");
    SplitAround(a, '<', b + ">");
    SplitNone(a, '<');
    var parts := Split(TemplateKey(name), '<');
    assert parts[2] == parts[2..][0] == a;
  }

  /** A name that begins with `<` leaves an empty third piece, so it is not listed at all. */
  lemma TemplateLeadingBracketUnlisted(b: string)
    ensures ListedName(TemplateKey(['<'] + b)) == None
  {
    var name := ['<'] + b;
    TemplateKeyParts(name);
    assert name + ">" == [] + ['<'] + (b + ">");
    SplitAround([], '<', b + ">");
    var parts := Split(TemplateKey(name), '<');
    assert parts[2] == parts[2..][0] == "";
  }

  /** So the template "a<b" is listed as "". */
  lemma TemplateWithBracketMisread()
    ensures ListedName(TemplateKey("a<b")) == Some("")
  {
    TemplateNameCutAtBracket("a", "b");
    assert "a" + ['<'] + "b" == "a<b";
  }
}
