// Reading and writing a legacy mod's saved settings (src/Compat/V1/SettingsCodec.cpp). The schema's groups
// are taken as one list of settings in authored order; documents are maps from keys to values.
module SettingsCodec {
  import opened Wrappers
  import opened KeyNames

  // A JSON value; `VOther` stands for null, arrays and objects.
  datatype Value = VBool(b: bool) | VInt(i: int) | VFloat(r: real) | VString(s: string) | VOther(id: nat)

  type Document = map<string, Value>

  const FORMAT_VERSION := "$formatVersion"
  const SCHEMA_VERSION := "$schemaVersion"

  datatype Kind = BoolKind | IntKind | FloatKind | EnumKind(options: seq<string>) | KeyKind | StringKind | UnknownKind

  // An authored setting. A missing or wrongly typed "default" is None.
  datatype Setting = Setting(key: string, kind: Kind, authoredDefault: Option<Value>, min: Option<real>, max: Option<real>, aliases: seq<string>)

  datatype Source = Source(id: string, validId: bool, version: int, settings: seq<Setting>)

  datatype Definition = Definition(
    id: string, defaults: Document, values: Document, preserved: Document, keys: seq<string>, version: int, formatVersion: int)

  // ---- values ------------------------------------------------------------------------------------------

  predicate IsNumber(v: Value) {
    v.VInt? || v.VFloat?
  }

  function NumberOf(v: Value): real
    requires IsNumber(v)
  {
    if v.VInt? then v.i as real else v.r
  }

  // JSON equality: numbers by value, whether written as integers or not.
  predicate Same(a: Value, b: Value) {
    if IsNumber(a) && IsNumber(b) then NumberOf(a) == NumberOf(b) else a == b
  }

  predicate InRange(s: Setting, v: Value)
    requires IsNumber(v)
  {
    (s.min.Some? ==> NumberOf(v) >= s.min.value) && (s.max.Some? ==> NumberOf(v) <= s.max.value)
  }

  predicate ValidValue(s: Setting, v: Value) {
    match s.kind
    case BoolKind => v.VBool?
    case EnumKind(options) => v.VString? && v.s in options
    case StringKind => v.VString?
    case KeyKind => v.VInt?
    case IntKind => v.VInt? && InRange(s, v)
    case FloatKind => IsNumber(v) && InRange(s, v)
    case UnknownKind => false
  }

  // setting["default"] after key names are resolved; None where the source throws.
  function Default(s: Setting): Option<Value> {
    if s.kind != KeyKind then s.authoredDefault
    else if s.authoredDefault.Some? && s.authoredDefault.value.VString? then Some(VInt(KeyCode(s.authoredDefault.value.s)))
    else None
  }

  // ---- reading -------------------------------------------------------------------------------------------

  function FirstAlias(saved: Document, aliases: seq<string>): Option<Value> {
    if aliases == [] then None
    else if aliases[0] in saved then Some(saved[aliases[0]])
    else FirstAlias(saved, aliases[1..])
  }

  function SavedValue(saved: Document, s: Setting): Option<Value> {
    if s.key in saved then Some(saved[s.key]) else FirstAlias(saved, s.aliases)
  }

  function Candidate(s: Setting, v: Value, fallback: Value): Value {
    if s.kind != KeyKind then v else if v.VString? then VInt(KeyCode(v.s)) else fallback
  }

  // The value a setting gets from a saved document.
  function ReadSetting(saved: Document, s: Setting): Value
    requires Default(s).Some?
  {
    var fallback, found := Default(s).value, SavedValue(saved, s);
    if found.None? then fallback else
    var candidate := Candidate(s, found.value, fallback);
    if ValidValue(s, candidate) then candidate else fallback
  }

  predicate Readable(s: Setting, seen: set<string>) {
    s.key != "" && s.key[0] != '$' && s.key !in seen && s.kind != UnknownKind && Default(s).Some?
  }

  function ReadOne(d: Definition, saved: Document, s: Setting): Definition
    requires Default(s).Some?
  {
    d.(defaults := d.defaults[s.key := Default(s).value], values := d.values[s.key := ReadSetting(saved, s)],
       preserved := d.preserved - {s.key} - Elements(s.aliases),
       keys := if s.kind == KeyKind then d.keys + [s.key] else d.keys)
  }

  function ReadAll(d: Definition, saved: Document, settings: seq<Setting>, seen: set<string>): Option<Definition>
    decreases |settings|
  {
    if settings == [] then Some(d)
    else if !Readable(settings[0], seen) then None
    else ReadAll(ReadOne(d, saved, settings[0]), saved, settings[1..], seen + {settings[0].key})
  }

  function DocumentOf(saved: Option<Document>): Document {
    if saved.Some? then saved.value else map[]
  }

  function Empty(source: Source, saved: Option<Document>): Definition {
    var doc := DocumentOf(saved);
    var format := if FORMAT_VERSION in doc && doc[FORMAT_VERSION].VInt? then Max(1, doc[FORMAT_VERSION].i) else 1;
    Definition(source.id, map[], map[], doc - {FORMAT_VERSION, SCHEMA_VERSION}, [], source.version, format)
  }

  // TranslateSettings; a saved document that is no object is None.
  function Translate(source: Source, saved: Option<Document>): Option<Definition> {
    if !source.validId then None
    else ReadAll(Empty(source, saved), DocumentOf(saved), source.settings, {})
  }

  method TranslateSettings(source: Source, saved: Option<Document>) returns (result: Option<Definition>)
    ensures result == Translate(source, saved)
  {
    if !source.validId { return None; }
    var d := Empty(source, saved);
    var doc := DocumentOf(saved);
    var seen: set<string> := {};
    var i := 0;
    while i < |source.settings|
      invariant i <= |source.settings|
      invariant ReadAll(d, doc, source.settings[i..], seen) == Translate(source, saved)
    {
      var s := source.settings[i];
      assert source.settings[i..][1..] == source.settings[i + 1..];
      if s.key == "" || s.key[0] == '$' || s.key in seen { return None; }
      if s.kind == UnknownKind || Default(s).None? { return None; }
      seen := seen + {s.key};
      var fallback := Default(s).value;
      var value := fallback;
      var found := SavedValue(doc, s);
      if found.Some? {
        var candidate := Candidate(s, found.value, fallback);
        if ValidValue(s, candidate) { value := candidate; }
      }
      if s.kind == KeyKind { d := d.(keys := d.keys + [s.key]); }
      d := d.(defaults := d.defaults[s.key := fallback], values := d.values[s.key := value],
              preserved := d.preserved - {s.key} - Elements(s.aliases));
      i := i + 1;
    }
    return Some(d);
  }

  // ---- writing -------------------------------------------------------------------------------------------

  // A value equal to the default is not written.
  predicate Omitted(d: Definition, key: string, v: Value) {
    key in d.defaults && Same(v, d.defaults[key])
  }

  predicate Encodable(d: Definition, current: Document) {
    forall k | k in current && k in d.keys && !Omitted(d, k, current[k]) :: current[k].VInt? && 0 <= current[k].i < 0x1_0000_0000
  }

  function EncodedValue(d: Definition, key: string, v: Value): Value
    requires key in d.keys ==> v.VInt? && v.i >= 0
  {
    if key in d.keys then VString(KeyName(v.i)) else v
  }

  function Versions(d: Definition): Document {
    (if d.version != 0 then map[SCHEMA_VERSION := VInt(d.version)] else map[])[FORMAT_VERSION := VInt(d.formatVersion)]
  }

  // The entries of `current` under these keys that are written.
  function Written(d: Definition, current: Document, keys: set<string>): Document
    requires Encodable(d, current)
  {
    map k | k in keys && k in current && !Omitted(d, k, current[k]) :: EncodedValue(d, k, current[k])
  }

  // A key setting's value must be a 32-bit code; the source throws or truncates otherwise.
  function Encode(d: Definition, current: Document): Document
    requires Encodable(d, current)
  {
    d.preserved + Written(d, current, current.Keys) + Versions(d)
  }

  lemma WrittenStep(d: Definition, current: Document, done: set<string>, k: string)
    requires Encodable(d, current) && k in current && k !in done
    ensures Written(d, current, done + {k}) ==
            if Omitted(d, k, current[k]) then Written(d, current, done) else Written(d, current, done)[k := EncodedValue(d, k, current[k])]
  {
    hide Omitted, EncodedValue;
  }

  method EncodeSettings(d: Definition, current: Document) returns (output: Document)
    requires Encodable(d, current)
    ensures output == Encode(d, current)
  {
    hide Encodable, Omitted, EncodedValue, Written, Versions;
    output := d.preserved;
    var todo := current.Keys;
    ghost var done: set<string> := {};
    NothingWritten(d, current);
    while todo != {}
      invariant todo !! done && todo + done == current.Keys && output == d.preserved + Written(d, current, done)
      decreases |todo|
    {
      var k :| k in todo;
      WrittenStep(d, current, done, k);
      MayEncode(d, current, k);
      if !Omitted(d, k, current[k]) {
        OverlayAdd(d.preserved, Written(d, current, done), k, EncodedValue(d, k, current[k]));
        output := output[k := EncodedValue(d, k, current[k])];
      }
      todo, done := todo - {k}, done + {k};
    }
    assert done == current.Keys;
    AddVersions(output, d);
    if d.version != 0 { output := output[SCHEMA_VERSION := VInt(d.version)]; }
    output := output[FORMAT_VERSION := VInt(d.formatVersion)];
  }

  lemma OverlayAdd(p: Document, w: Document, k: string, v: Value)
    ensures p + w[k := v] == (p + w)[k := v]
  {}

  lemma NothingWritten(d: Definition, current: Document)
    requires Encodable(d, current)
    ensures d.preserved + Written(d, current, {}) == d.preserved
  {}

  lemma MayEncode(d: Definition, current: Document, k: string)
    requires Encodable(d, current) && k in current
    ensures !Omitted(d, k, current[k]) && k in d.keys ==> current[k].VInt? && current[k].i >= 0
  {}

  lemma AddVersions(output: Document, d: Definition)
    ensures output + Versions(d) ==
            (if d.version != 0 then output[SCHEMA_VERSION := VInt(d.version)] else output)[FORMAT_VERSION := VInt(d.formatVersion)]
  {}

  // ---- what reading produces -----------------------------------------------------------------------------

  predicate Listed(settings: seq<Setting>, key: string) {
    exists s | s in settings :: s.key == key
  }

  predicate IsAlias(settings: seq<Setting>, name: string) {
    exists s | s in settings :: name in s.aliases
  }

  // The settings have distinct, well-formed keys, none of them seen before.
  predicate Authored(settings: seq<Setting>, seen: set<string>) {
    && (forall s | s in settings :: Readable(s, seen))
    && (forall i, j | 0 <= i < j < |settings| :: settings[i].key != settings[j].key)
  }

  lemma {:induction false} ReadAllFails(d: Definition, saved: Document, settings: seq<Setting>, seen: set<string>)
    ensures ReadAll(d, saved, settings, seen).Some? <==> Authored(settings, seen)
    decreases |settings|
  {
    hide ReadOne, Default;
    if settings != [] && Readable(settings[0], seen) {
      var first, rest, more := settings[0], settings[1..], seen + {settings[0].key};
      ReadAllFails(ReadOne(d, saved, first), saved, rest, more);
      assert forall s | s in rest :: s in settings;
      if Authored(rest, more) {
        forall i, j | 0 <= i < j < |settings| ensures settings[i].key != settings[j].key {
          if i == 0 { assert settings[j] == rest[j - 1] && Readable(rest[j - 1], more); }
          else { assert settings[i] == rest[i - 1] && settings[j] == rest[j - 1]; }
        }
        forall s | s in settings ensures Readable(s, seen) { if s != first { assert Readable(s, more); } }
      }
      if Authored(settings, seen) {
        forall s | s in rest ensures Readable(s, more) {
          var j :| 0 <= j < |rest| && rest[j] == s;
          assert settings[j + 1] == s && Readable(s, seen);
        }
      }
    } else if settings != [] {
      assert settings[0] in settings;
    }
  }

  predicate ListedKey(settings: seq<Setting>, key: string) {
    exists s | s in settings :: s.key == key && s.kind == KeyKind
  }

  // Preserved entries are those of the saved document that no setting claims as its key or an alias.
  predicate Unclaimed(before: Document, after: Document, settings: seq<Setting>) {
    && (forall k | k in after :: k in before && after[k] == before[k] && !Listed(settings, k) && !IsAlias(settings, k))
    && (forall k | k in before && !Listed(settings, k) && !IsAlias(settings, k) :: k in after)
  }

  // What TranslateSettings makes of each authored setting.
  predicate ReadFrom(d: Definition, saved: Document, settings: seq<Setting>) {
    forall s | s in settings ::
      && Default(s).Some? && s.key in d.defaults && d.defaults[s.key] == Default(s).value
      && s.key in d.values && d.values[s.key] == ReadSetting(saved, s)
  }

  lemma ClaimFirst(before: Document, mid: Document, after: Document, settings: seq<Setting>)
    requires settings != [] && mid == before - {settings[0].key} - Elements(settings[0].aliases) && Unclaimed(mid, after, settings[1..])
    ensures Unclaimed(before, after, settings)
  {
    var first, rest := settings[0], settings[1..];
    forall k ensures Listed(settings, k) <==> first.key == k || Listed(rest, k) {
      if Listed(rest, k) { var s :| s in rest && s.key == k; assert s in settings; }
    }
    forall k ensures IsAlias(settings, k) <==> k in first.aliases || IsAlias(rest, k) {
      if IsAlias(rest, k) { var s :| s in rest && k in s.aliases; assert s in settings; }
    }
  }

  lemma {:induction false} ReadAllResult(d: Definition, saved: Document, settings: seq<Setting>, seen: set<string>)
    requires ReadAll(d, saved, settings, seen).Some?
    ensures var e := ReadAll(d, saved, settings, seen).value;
            && e.id == d.id && e.version == d.version && e.formatVersion == d.formatVersion
            && ReadFrom(e, saved, settings) && Unclaimed(d.preserved, e.preserved, settings)
            && (forall k | k in d.defaults && !Listed(settings, k) :: k in e.defaults && e.defaults[k] == d.defaults[k])
            && (forall k | k in d.values && !Listed(settings, k) :: k in e.values && e.values[k] == d.values[k])
            && (forall k | k in e.values :: k in d.values || Listed(settings, k))
            && (forall k :: k in e.keys <==> k in d.keys || ListedKey(settings, k))
    decreases |settings|
  {
    hide ReadSetting, Default, Unclaimed, Authored, IsAlias, Listed, ListedKey;
    if settings == [] {
      NothingClaimed(d.preserved);
    } else {
      var first, rest, more := settings[0], settings[1..], seen + {settings[0].key};
      var u := ReadOne(d, saved, first);
      ReadAllResult(u, saved, rest, more);
      ReadAllFails(u, saved, rest, more);
      var e := ReadAll(u, saved, rest, more).value;
      ClaimFirst(d.preserved, u.preserved, e.preserved, settings);
      assert !Listed(rest, first.key) by { FreshKeys(rest, more, first.key); }
      SplitListed(settings);
    }
  }

  lemma NothingClaimed(preserved: Document)
    ensures Unclaimed(preserved, preserved, []) && forall k :: !Listed([], k) && !ListedKey([], k)
  {}

  lemma FreshKeys(settings: seq<Setting>, seen: set<string>, key: string)
    requires Authored(settings, seen) && key in seen
    ensures !Listed(settings, key)
  {}

  lemma SplitListed(settings: seq<Setting>)
    requires settings != []
    ensures forall k :: Listed(settings, k) <==> settings[0].key == k || Listed(settings[1..], k)
    ensures forall k :: ListedKey(settings, k) <==> (settings[0].key == k && settings[0].kind == KeyKind) || ListedKey(settings[1..], k)
    ensures forall s :: s in settings <==> s == settings[0] || s in settings[1..]
  {
    var first, rest := settings[0], settings[1..];
    forall k ensures Listed(settings, k) <==> first.key == k || Listed(rest, k) {
      if Listed(rest, k) { var s :| s in rest && s.key == k; assert s in settings; }
    }
    forall k ensures ListedKey(settings, k) <==> (first.key == k && first.kind == KeyKind) || ListedKey(rest, k) {
      if ListedKey(rest, k) { var s :| s in rest && s.key == k && s.kind == KeyKind; assert s in settings; }
    }
  }

  // Defaults and key settings come from the schema alone, whatever document is read.
  lemma {:induction false} SchemaDecides(d: Definition, e: Definition, saved: Document, other: Document, settings: seq<Setting>, seen: set<string>)
    requires d.defaults == e.defaults && d.keys == e.keys
    requires ReadAll(d, saved, settings, seen).Some? && ReadAll(e, other, settings, seen).Some?
    ensures ReadAll(d, saved, settings, seen).value.defaults == ReadAll(e, other, settings, seen).value.defaults
    ensures ReadAll(d, saved, settings, seen).value.keys == ReadAll(e, other, settings, seen).value.keys
    decreases |settings|
  {
    if settings != [] {
      SchemaDecides(ReadOne(d, saved, settings[0]), ReadOne(e, other, settings[0]), saved, other, settings[1..], seen + {settings[0].key});
    }
  }

  // ---- the round trip --------------------------------------------------------------------------------------

  lemma SameIsEquivalence(a: Value, b: Value, c: Value)
    ensures Same(a, a) && (Same(a, b) ==> Same(b, a)) && (Same(a, b) && Same(b, c) ==> Same(a, c))
  {}

  // A setting's value is its default, which is not written.
  predicate AtDefault(s: Setting, v: Value)
    requires Default(s).Some?
  {
    Same(v, Default(s).value)
  }

  // Current values a caller may write: one for each authored key, valid unless it is the default; a key code
  // that is written has a name.
  predicate Current(settings: seq<Setting>, current: Document) {
    && (forall s | s in settings :: Default(s).Some? && s.key in current && (AtDefault(s, current[s.key]) || ValidValue(s, current[s.key])))
    && (forall s | s in settings && s.kind == KeyKind && current[s.key].VInt? && !AtDefault(s, current[s.key]) ::
          0 <= current[s.key].i < 0x1_0000_0000 && KeyCode(KeyName(current[s.key].i)) == current[s.key].i)
    && (forall k | k in current :: Listed(settings, k))
  }

  // The authored setting with this key.
  function SettingFor(settings: seq<Setting>, key: string): (r: Option<Setting>)
    ensures r.Some? ==> r.value in settings && r.value.key == key
    ensures r.None? ==> !Listed(settings, key)
  {
    if settings == [] then None
    else if settings[0].key == key then Some(settings[0])
    else SettingFor(settings[1..], key)
  }

  // What a document written from the current values will hold under a name that is an alias: a version entry,
  // or the value of an authored setting that is not at its default, key settings by name.
  function NamedEntry(settings: seq<Setting>, version: int, formatVersion: int, current: Document, name: string): Option<Value>
    requires Current(settings, current)
  {
    if name == FORMAT_VERSION then Some(VInt(formatVersion))
    else if name == SCHEMA_VERSION && version != 0 then Some(VInt(version))
    else
      var t := SettingFor(settings, name);
      if t.None? || AtDefault(t.value, current[name]) then None
      else if t.value.kind == KeyKind then Some(VString(KeyName(current[name].i)))
      else Some(current[name])
  }

  function FirstNamed(settings: seq<Setting>, version: int, formatVersion: int, current: Document, aliases: seq<string>): Option<Value>
    requires Current(settings, current)
  {
    if aliases == [] then None
    else if NamedEntry(settings, version, formatVersion, current, aliases[0]).Some? then
      NamedEntry(settings, version, formatVersion, current, aliases[0])
    else FirstNamed(settings, version, formatVersion, current, aliases[1..])
  }

  // The setting is at its default, and the first of its aliases that names a version entry or an authored key
  // away from its default names a valid value other than the default.
  predicate Captured(settings: seq<Setting>, version: int, formatVersion: int, current: Document, s: Setting)
    requires Current(settings, current) && s in settings
  {
    var fallback, found := Default(s).value, FirstNamed(settings, version, formatVersion, current, s.aliases);
    && AtDefault(s, current[s.key]) && found.Some?
    && ValidValue(s, Candidate(s, found.value, fallback)) && !Same(Candidate(s, found.value, fallback), fallback)
  }

  // The same seen from the written document.
  predicate Overridden(s: Setting, output: Document, fallback: Value) {
    var found := FirstAlias(output, s.aliases);
    s.key !in output && found.Some? &&
    ValidValue(s, Candidate(s, found.value, fallback)) && !Same(Candidate(s, found.value, fallback), fallback)
  }

  lemma CurrentIsEncodable(source: Source, saved: Option<Document>, current: Document)
    requires Translate(source, saved).Some? && Current(source.settings, current)
    ensures Encodable(Translate(source, saved).value, current)
  {
    var d, doc := Translate(source, saved).value, DocumentOf(saved);
    ReadAllResult(Empty(source, saved), doc, source.settings, {});
    forall k | k in current && k in d.keys && !Omitted(d, k, current[k]) ensures current[k].VInt? && 0 <= current[k].i < 0x1_0000_0000 {
      var s :| s in source.settings && s.key == k && s.kind == KeyKind;
      assert ValidValue(s, current[k]);
    }
  }

  // What the written document holds under each kind of key.
  lemma OutputOf(d: Definition, settings: seq<Setting>, current: Document, s: Setting)
    requires Encodable(d, current) && s in settings && s.key in current && s.key != FORMAT_VERSION && s.key != SCHEMA_VERSION
    requires s.key !in d.preserved
    ensures var output := Encode(d, current);
            if Omitted(d, s.key, current[s.key]) then s.key !in output
            else s.key in output && output[s.key] == EncodedValue(d, s.key, current[s.key])
  {
    hide Omitted, EncodedValue;
  }

  lemma SettingReadsBack(d: Definition, settings: seq<Setting>, current: Document, s: Setting)
    requires Encodable(d, current) && Current(settings, current) && s in settings && Default(s).Some?
    requires s.key != FORMAT_VERSION && s.key != SCHEMA_VERSION && s.key !in d.preserved
    requires s.key in d.defaults && d.defaults[s.key] == Default(s).value && (s.key in d.keys <==> s.kind == KeyKind)
    ensures var output := Encode(d, current);
            Same(ReadSetting(output, s), current[s.key]) <==> !Overridden(s, output, Default(s).value)
  {
    hide Encode, Default;
    OutputOf(d, settings, current, s);
    var output, fallback, v := Encode(d, current), Default(s).value, current[s.key];
    SameIsEquivalence(v, fallback, fallback);
    SameIsEquivalence(fallback, v, v);
    if Omitted(d, s.key, v) {
      var found := FirstAlias(output, s.aliases);
      if found.Some? {
        var candidate := Candidate(s, found.value, fallback);
        SameIsEquivalence(candidate, fallback, v);
        SameIsEquivalence(candidate, v, fallback);
      }
    } else {
      assert Candidate(s, output[s.key], fallback) == v;
    }
  }

  lemma PlainKey(key: string)
    requires key != "" && key[0] != '$'
    ensures key != FORMAT_VERSION && key != SCHEMA_VERSION
  {
    assert FORMAT_VERSION[0] == '$' && SCHEMA_VERSION[0] == '$';
  }

  // What a successful translation looks like.
  predicate Translated(source: Source, saved: Option<Document>, d: Definition) {
    && d.version == source.version && d.formatVersion == Empty(source, saved).formatVersion
    && ReadFrom(d, DocumentOf(saved), source.settings)
    && Unclaimed(DocumentOf(saved) - {FORMAT_VERSION, SCHEMA_VERSION}, d.preserved, source.settings)
    && (forall k | k in d.values :: Listed(source.settings, k))
    && (forall s | s in source.settings :: s.key in d.keys <==> s.kind == KeyKind)
  }

  lemma TranslateFacts(source: Source, saved: Option<Document>)
    requires Translate(source, saved).Some?
    ensures Translated(source, saved, Translate(source, saved).value) && Authored(source.settings, {})
  {
    hide ReadSetting, Default, Readable, ReadAll;
    ReadAllFails(Empty(source, saved), DocumentOf(saved), source.settings, {});
    ReadAllResult(Empty(source, saved), DocumentOf(saved), source.settings, {});
    forall s | s in source.settings ensures ListedKey(source.settings, s.key) <==> s.kind == KeyKind { OnlyKey(source.settings, s); }
  }

  lemma AnyDocumentTranslates(source: Source, saved: Option<Document>, other: Option<Document>)
    requires Translate(source, saved).Some?
    ensures Translate(source, other).Some?
    ensures Translate(source, other).value.defaults == Translate(source, saved).value.defaults
    ensures Translate(source, other).value.keys == Translate(source, saved).value.keys
  {
    hide ReadAll;
    ReadAllFails(Empty(source, saved), DocumentOf(saved), source.settings, {});
    ReadAllFails(Empty(source, other), DocumentOf(other), source.settings, {});
    SchemaDecides(Empty(source, saved), Empty(source, other), DocumentOf(saved), DocumentOf(other), source.settings, {});
  }

  lemma PreservedIsUnclaimed(source: Source, saved: Option<Document>, d: Definition)
    requires Translated(source, saved, d)
    ensures forall k | k in d.preserved :: !Listed(source.settings, k) && !IsAlias(source.settings, k) && k != FORMAT_VERSION && k != SCHEMA_VERSION
  {}

  lemma ValueReadsBack(source: Source, saved: Option<Document>, d: Definition, current: Document, e: Definition, s: Setting)
    requires Translated(source, saved, d) && Authored(source.settings, {}) && Encodable(d, current) && Current(source.settings, current)
    requires Translated(source, Some(Encode(d, current)), e) && s in source.settings
    ensures s.key in e.values && s.key in d.defaults
    ensures Same(e.values[s.key], current[s.key]) <==> !Overridden(s, Encode(d, current), d.defaults[s.key])
  {
    hide ReadSetting, Overridden, Default, Encode, Readable, Unclaimed;
    KeyIsPlain(source.settings, s);
    OnlyKey(source.settings, s);
    PreservedIsUnclaimed(source, saved, d);
    SettingReadsBack(d, source.settings, current, s);
  }

  // What is written under an alias is what the schema and the current values say.
  lemma EntryUnder(source: Source, saved: Option<Document>, current: Document, name: string)
    requires Translate(source, saved).Some? && Current(source.settings, current) && IsAlias(source.settings, name)
    ensures var d := Translate(source, saved).value;
            && Encodable(d, current)
            && var output, entry := Encode(d, current), NamedEntry(source.settings, d.version, d.formatVersion, current, name);
            && (name in output <==> entry.Some?) && (entry.Some? ==> output[name] == entry.value)
  {
    hide Translate, Default, Same, KeyName, IsAlias, ReadSetting, Readable, Encode, Encodable, Unclaimed, Authored;
    CurrentIsEncodable(source, saved, current);
    TranslateFacts(source, saved);
    var d := Translate(source, saved).value;
    PreservedIsUnclaimed(source, saved, d);
    EncodedUnder(d, current, name);
    var t := SettingFor(source.settings, name);
    if t.Some? { OnlyKey(source.settings, t.value); KeyIsPlain(source.settings, t.value); }
  }

  // What is written under a name that no preserved entry has: a version, or a current value that is not omitted.
  lemma EncodedUnder(d: Definition, current: Document, name: string)
    requires Encodable(d, current) && name !in d.preserved
    ensures var output, versions := Encode(d, current), Versions(d);
            if name in versions then name in output && output[name] == versions[name]
            else if name in current && !Omitted(d, name, current[name]) then name in output && output[name] == EncodedValue(d, name, current[name])
            else name !in output
  {
    hide Omitted, EncodedValue, Versions;
  }

  lemma {:induction false} FirstUnder(source: Source, saved: Option<Document>, current: Document, aliases: seq<string>)
    requires Translate(source, saved).Some? && Current(source.settings, current)
    requires forall name | name in aliases :: IsAlias(source.settings, name)
    ensures var d := Translate(source, saved).value;
            && Encodable(d, current)
            && FirstAlias(Encode(d, current), aliases) == FirstNamed(source.settings, d.version, d.formatVersion, current, aliases)
  {
    hide Translate, Encode, Encodable, NamedEntry, IsAlias;
    CurrentIsEncodable(source, saved, current);
    if aliases != [] {
      EntryUnder(source, saved, current, aliases[0]);
      FirstUnder(source, saved, current, aliases[1..]);
    }
  }

  lemma CapturedIsOverridden(source: Source, saved: Option<Document>, current: Document, s: Setting)
    requires Translate(source, saved).Some? && Current(source.settings, current) && s in source.settings
    ensures var d := Translate(source, saved).value;
            && Encodable(d, current) && s.key in d.defaults && d.defaults[s.key] == Default(s).value
            && (Captured(source.settings, d.version, d.formatVersion, current, s) <==> Overridden(s, Encode(d, current), Default(s).value))
  {
    hide Translate, Encode, Encodable, FirstAlias, FirstNamed, Default, Same, ReadSetting, Readable, Unclaimed;
    CurrentIsEncodable(source, saved, current);
    TranslateFacts(source, saved);
    var d := Translate(source, saved).value;
    forall name | name in s.aliases ensures IsAlias(source.settings, name) {}
    FirstUnder(source, saved, current, s.aliases);
    KeyIsPlain(source.settings, s);
    OnlyKey(source.settings, s);
    PreservedIsUnclaimed(source, saved, d);
    OutputOf(d, source.settings, current, s);
  }

  // Reading what was written gives back the same unknown entries, versions, defaults and key settings, and each
  // setting's value, up to JSON equality, exactly unless it is at its default and an alias captures it.
  lemma SettingsRoundTrip(source: Source, saved: Option<Document>, current: Document)
    requires Translate(source, saved).Some? && Current(source.settings, current)
    ensures var d := Translate(source, saved).value;
            && Encodable(d, current) && Translate(source, Some(Encode(d, current))).Some?
            && var e := Translate(source, Some(Encode(d, current))).value;
            && e.preserved == d.preserved && e.version == d.version && e.formatVersion == d.formatVersion
            && e.defaults == d.defaults && e.keys == d.keys && e.values.Keys == current.Keys
            && forall s | s in source.settings ::
                 s.key in e.values && s.key in current &&
                 (Same(e.values[s.key], current[s.key]) <==> !Captured(source.settings, d.version, d.formatVersion, current, s))
  {
    hide Overridden, Captured, Translate, Encode, Encodable, Authored;
    CurrentIsEncodable(source, saved, current);
    TranslateFacts(source, saved);
    var d := Translate(source, saved).value;
    var output := Encode(d, current);
    AnyDocumentTranslates(source, saved, Some(output));
    TranslateFacts(source, Some(output));
    var e := Translate(source, Some(output)).value;
    FormatVersionReadsBack(source, saved, d, current);
    PreservedIsUnclaimed(source, saved, d);
    PreservedReadsBack(source, d, e, current);
    forall s | s in source.settings
      ensures s.key in e.values && s.key in current
      ensures Same(e.values[s.key], current[s.key]) <==> !Captured(source.settings, d.version, d.formatVersion, current, s)
    {
      ValueReadsBack(source, saved, d, current, e, s);
      CapturedIsOverridden(source, saved, current, s);
    }
    forall k | k in current ensures k in e.values { var s :| s in source.settings && s.key == k; }
    forall k | k in e.values ensures k in current { var s :| s in source.settings && s.key == k; }
  }

  lemma KeyIsPlain(settings: seq<Setting>, s: Setting)
    requires Authored(settings, {}) && s in settings
    ensures s.key != FORMAT_VERSION && s.key != SCHEMA_VERSION
  {
    PlainKey(s.key);
  }

  lemma OnlyKey(settings: seq<Setting>, s: Setting)
    requires Authored(settings, {}) && s in settings
    ensures ListedKey(settings, s.key) <==> s.kind == KeyKind
    ensures Listed(settings, s.key)
  {
    if ListedKey(settings, s.key) {
      var u :| u in settings && u.key == s.key && u.kind == KeyKind;
      var i :| 0 <= i < |settings| && settings[i] == s;
      var j :| 0 <= j < |settings| && settings[j] == u;
    }
  }

  lemma FormatVersionReadsBack(source: Source, saved: Option<Document>, d: Definition, current: Document)
    requires Encodable(d, current) && d.formatVersion == Empty(source, saved).formatVersion
    ensures Empty(source, Some(Encode(d, current))).formatVersion == d.formatVersion
  {
    hide Written;
  }

  lemma PreservedReadsBack(source: Source, d: Definition, e: Definition, current: Document)
    requires Encodable(d, current) && Current(source.settings, current)
    requires forall k | k in d.preserved :: !Listed(source.settings, k) && !IsAlias(source.settings, k) && k != FORMAT_VERSION && k != SCHEMA_VERSION
    requires Unclaimed(Encode(d, current) - {FORMAT_VERSION, SCHEMA_VERSION}, e.preserved, source.settings)
    ensures e.preserved == d.preserved
  {
    hide Listed, IsAlias, EncodedValue, Omitted;
    var output := Encode(d, current);
    forall k | k != FORMAT_VERSION && k != SCHEMA_VERSION && !Listed(source.settings, k)
      ensures (k in output <==> k in d.preserved) && (k in output ==> output[k] == d.preserved[k])
    {
      assert k !in current;
    }
  }

  // With every alias apart from the authored keys and the two version entries nothing is captured, so every
  // value comes back.
  lemma DisjointAliasesCaptureNothing(source: Source, saved: Option<Document>, current: Document, s: Setting)
    requires Translate(source, saved).Some? && Current(source.settings, current) && s in source.settings
    requires forall name | name in s.aliases :: !Listed(source.settings, name) && name != FORMAT_VERSION && name != SCHEMA_VERSION
    ensures var d := Translate(source, saved).value; !Captured(source.settings, d.version, d.formatVersion, current, s)
  {
    hide NamedEntry, Translate;
    var d := Translate(source, saved).value;
    forall name | name in s.aliases ensures NamedEntry(source.settings, d.version, d.formatVersion, current, name) == None {
      Unnamed(source.settings, d.version, d.formatVersion, current, name);
    }
    NothingNamed(source.settings, d.version, d.formatVersion, current, s.aliases);
  }

  lemma Unnamed(settings: seq<Setting>, version: int, formatVersion: int, current: Document, name: string)
    requires Current(settings, current) && !Listed(settings, name) && name != FORMAT_VERSION && name != SCHEMA_VERSION
    ensures NamedEntry(settings, version, formatVersion, current, name) == None
  {}

  lemma {:induction false} NothingNamed(settings: seq<Setting>, version: int, formatVersion: int, current: Document, aliases: seq<string>)
    requires Current(settings, current)
    requires forall name | name in aliases :: NamedEntry(settings, version, formatVersion, current, name) == None
    ensures FirstNamed(settings, version, formatVersion, current, aliases) == None
  {
    if aliases != [] { NothingNamed(settings, version, formatVersion, current, aliases[1..]); }
  }

  // Without that it does happen: "a" left at its default comes back as the value of "b", which it names as an
  // alias.
  lemma AliasOfAnAuthoredKeyCaptures(n: int)
    requires n != 0
    ensures var a := Setting("a", IntKind, Some(VInt(0)), None, None, ["b"]);
            var b := Setting("b", IntKind, Some(VInt(0)), None, None, []);
            var source, current := Source("m", true, 0, [a, b]), map["a" := VInt(0), "b" := VInt(n)];
            && Translate(source, None).Some? && Current(source.settings, current)
            && var d := Translate(source, None).value;
            && Encodable(d, current) && Translate(source, Some(Encode(d, current))).Some?
            && var e := Translate(source, Some(Encode(d, current))).value;
            && "a" in e.values && !Same(e.values["a"], current["a"])
  {
    var a := Setting("a", IntKind, Some(VInt(0)), None, None, ["b"]);
    var b := Setting("b", IntKind, Some(VInt(0)), None, None, []);
    var source, current := Source("m", true, 0, [a, b]), map["a" := VInt(0), "b" := VInt(n)];
    TwoAuthored(a, b);
    ReadAllFails(Empty(source, None), map[], source.settings, {});
    assert Translate(source, None).Some?;
    assert a in source.settings && b in source.settings;
    assert Listed(source.settings, "a") && Listed(source.settings, "b");
    assert Current(source.settings, current);
    SettingsRoundTrip(source, None, current);
    CaptureOfA(a, b, n);
  }

  lemma TwoAuthored(a: Setting, b: Setting)
    requires a.key == "a" && b.key == "b" && a.kind == b.kind == IntKind && a.authoredDefault.Some? && b.authoredDefault.Some?
    ensures Authored([a, b], {})
  {
    assert "a"[0] != "b"[0] && "a"[0] != '$' && "b"[0] != '$';
  }

  lemma CaptureOfA(a: Setting, b: Setting, n: int)
    requires a == Setting("a", IntKind, Some(VInt(0)), None, None, ["b"]) && b == Setting("b", IntKind, Some(VInt(0)), None, None, [])
    requires n != 0 && Current([a, b], map["a" := VInt(0), "b" := VInt(n)])
    ensures forall version, formatVersion :: Captured([a, b], version, formatVersion, map["a" := VInt(0), "b" := VInt(n)], a)
  {
    hide FirstNamed, NamedEntry, ValidValue, Candidate, Same;
    var current := map["a" := VInt(0), "b" := VInt(n)];
    forall version: int, formatVersion: int ensures Captured([a, b], version, formatVersion, current, a) {
      NamedB(a, b, n, version, formatVersion);
      OnlyAlias([a, b], version, formatVersion, current, "b");
      BIsValid(a, n);
    }
  }

  lemma NamedB(a: Setting, b: Setting, n: int, version: int, formatVersion: int)
    requires a == Setting("a", IntKind, Some(VInt(0)), None, None, ["b"]) && b == Setting("b", IntKind, Some(VInt(0)), None, None, [])
    requires n != 0 && Current([a, b], map["a" := VInt(0), "b" := VInt(n)])
    ensures NamedEntry([a, b], version, formatVersion, map["a" := VInt(0), "b" := VInt(n)], "b") == Some(VInt(n))
  {
    assert "a"[0] != "b"[0] && "b"[0] != FORMAT_VERSION[0] && "b"[0] != SCHEMA_VERSION[0];
    assert [a, b][1..] == [b];
    assert SettingFor([a, b], "b") == SettingFor([b], "b") == Some(b);
  }

  lemma OnlyAlias(settings: seq<Setting>, version: int, formatVersion: int, current: Document, name: string)
    requires Current(settings, current) && NamedEntry(settings, version, formatVersion, current, name).Some?
    ensures FirstNamed(settings, version, formatVersion, current, [name]) == NamedEntry(settings, version, formatVersion, current, name)
  {
    hide NamedEntry, Current;
    assert [name][0] == name;
  }

  lemma BIsValid(a: Setting, n: int)
    requires a == Setting("a", IntKind, Some(VInt(0)), None, None, ["b"]) && n != 0
    ensures Default(a) == Some(VInt(0)) && AtDefault(a, VInt(0))
    ensures ValidValue(a, Candidate(a, VInt(n), VInt(0))) && !Same(Candidate(a, VInt(n), VInt(0)), VInt(0))
  {}
}
