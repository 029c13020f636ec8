/**
  The revisioned settings overlay of the control center: a change request is checked against
  the current revision and the settings catalog, merged into the overlay, and the revision
  goes up. Requests are handled one at a time; the file holding the overlay is a field.
*/
module SettingsOverlay {
  import opened StringOrder
  import opened Wrappers

  const MAX_U64 := 0xFFFF_FFFF_FFFF_FFFF
  const MIN_I64 := -0x8000_0000_0000_0000

  /** A parsed setting. Objects can never be stored settings, so their contents do not matter. */
  datatype Value =
    | Null | Bool(b: bool) | Int(i: int) | Float(f: real) | Str(s: string) | List(items: seq<Value>) | Object

  /** A catalog entry is read field by field, so any of its parts may be missing. */
  datatype Field = Field(key: Option<string>, kind: Option<string>, minimum: Option<real>, maximum: Option<real>,
                         options: Option<seq<Option<string>>>, applyMode: Option<string>)
  datatype Section = Section(id: Option<string>, fields: Option<seq<Field>>)
  type Catalog = Option<seq<Section>>

  /** The settings of one section; the file may also hold something that is no object. */
  datatype Override = Settings(values: map<string, Value>) | NotObject
  /** A revision that is missing or no 64-bit number reads as zero. */
  datatype Overlay = Overlay(revision: nat, components: map<string, Override>)

  datatype Setting = Setting(key: string, value: Value)
  datatype Change = Change(section: string, settings: Option<seq<Setting>>)
  datatype Request = Request(expected: Option<nat>, changes: Option<seq<Change>>)

  datatype Error =
    | MissingRevision | Conflict(expected: nat, current: nat) | ChangesNotObject | NoSections
    | UnknownSection(section: string) | NoFields | SectionNotObject(section: string)
    | UnknownSetting(section: string, key: string) | BadValue(section: string, key: string, why: ValueError)
    | BrokenOverride(section: string)

  datatype ValueError = NoKind | WrongType | BelowMinimum | AboveMaximum | NotAnOption | NotHttp | NotAnIdentifier

  datatype Result<T> = Ok(value: T) | Err(error: Error)

  // ---- one value against its catalog field ----

  predicate IsInteger(v: Value) {
    v.Int? && MIN_I64 <= v.i <= MAX_U64
  }

  function Number(v: Value): Option<real> {
    match v
    case Int(i) => Some(i as real)
    case Float(f) => Some(f)
    case _ => None
  }

  predicate HasType(kind: string, v: Value) {
    if kind == "boolean" then v.Bool?
    else if kind == "integer" then IsInteger(v)
    else if kind == "number" then Number(v).Some?
    else if kind in {"string", "path", "url", "secret_ref", "enum"} then v.Str?
    else kind == "string_list" && v.List? && forall k :: 0 <= k < |v.items| ==> v.items[k].Str?
  }

  predicate IdentifierChar(c: char) {
    'a' <= c <= 'z' || 'A' <= c <= 'Z' || '0' <= c <= '9' || c == '_'
  }

  function ValidateValue(f: Field, v: Value): Option<ValueError> {
    if f.kind.None? then Some(NoKind)
    else
      var kind, n := f.kind.value, Number(v);
      if !HasType(kind, v) then Some(WrongType)
      else if n.Some? && f.minimum.Some? && n.value < f.minimum.value then Some(BelowMinimum)
      else if n.Some? && f.maximum.Some? && n.value > f.maximum.value then Some(AboveMaximum)
      else if kind == "enum" && !(f.options.Some? && Some(v.s) in f.options.value) then Some(NotAnOption)
      else if kind == "url" && !("http://" <= v.s || "https://" <= v.s) then Some(NotHttp)
      else if kind == "secret_ref" && exists k :: 0 <= k < |v.s| && !IdentifierChar(v.s[k]) then Some(NotAnIdentifier)
      else None
  }

  // ---- a change request against the catalog ----

  function FindSection(sections: seq<Section>, id: string): Option<Section> {
    if sections == [] then None
    else if sections[0].id == Some(id) then Some(sections[0])
    else FindSection(sections[1..], id)
  }

  function FindField(fields: seq<Field>, key: string): Option<Field> {
    if fields == [] then None
    else if fields[0].key == Some(key) then Some(fields[0])
    else FindField(fields[1..], key)
  }

  /** The catalog field for a setting: first section with the id, first field with the key. */
  function Lookup(catalog: Catalog, section: string, key: string): Option<Field> {
    if catalog.None? then None
    else
      var found := FindSection(catalog.value, section);
      if found.None? || found.value.fields.None? then None else FindField(found.value.fields.value, key)
  }

  function SettingFault(fields: seq<Field>, section: string, setting: Setting): Option<Error> {
    var field := FindField(fields, setting.key);
    if field.None? then Some(UnknownSetting(section, setting.key))
    else
      var why := ValidateValue(field.value, setting.value);
      if why.Some? then Some(BadValue(section, setting.key, why.value)) else None
  }

  /** The first fault among the settings of a section. */
  function SettingsFault(fields: seq<Field>, section: string, settings: seq<Setting>): Option<Error> {
    if settings == [] then None
    else
      var earlier := SettingsFault(fields, section, settings[..|settings| - 1]);
      if earlier.Some? then earlier else SettingFault(fields, section, settings[|settings| - 1])
  }

  function ChangeFault(sections: seq<Section>, change: Change): Option<Error> {
    var section := FindSection(sections, change.section);
    if section.None? then Some(UnknownSection(change.section))
    else if section.value.fields.None? then Some(NoFields)
    else if change.settings.None? then Some(SectionNotObject(change.section))
    else SettingsFault(section.value.fields.value, change.section, change.settings.value)
  }

  function ChangesFault(sections: seq<Section>, changes: seq<Change>): Option<Error> {
    if changes == [] then None
    else
      var earlier := ChangesFault(sections, changes[..|changes| - 1]);
      if earlier.Some? then earlier else ChangeFault(sections, changes[|changes| - 1])
  }

  function RequestFault(request: Request, revision: nat, catalog: Catalog): Option<Error> {
    if request.expected.None? then Some(MissingRevision)
    else if request.expected.value != revision then Some(Conflict(request.expected.value, revision))
    else if request.changes.None? then Some(ChangesNotObject)
    else if catalog.None? then Some(NoSections)
    else ChangesFault(catalog.value, request.changes.value)
  }

  // ---- what the catalog says of a setting ----

  /** Section `i` is the first of the catalog to carry the id. */
  ghost predicate IsSection(sections: seq<Section>, i: nat, id: string) {
    && i < |sections| && sections[i].id == Some(id)
    && forall j: nat :: j < i ==> sections[j].id != Some(id)
  }

  /** Field `k` is the first of its section to carry the key. */
  ghost predicate IsField(fields: seq<Field>, k: nat, key: string) {
    && k < |fields| && fields[k].key == Some(key)
    && forall j: nat :: j < k ==> fields[j].key != Some(key)
  }

  /** The catalog has the section, and the section lists its fields. */
  ghost predicate Lists(catalog: Catalog, section: string, fields: seq<Field>) {
    catalog.Some? && exists i: nat :: IsSection(catalog.value, i, section) && catalog.value[i].fields == Some(fields)
  }

  /** The setting is described by field `f`: the first with its key in the first section with its id. */
  ghost predicate Declares(catalog: Catalog, section: string, key: string, f: Field) {
    exists fields, k: nat :: Lists(catalog, section, fields) && IsField(fields, k, key) && fields[k] == f
  }

  lemma {:induction false} FindSectionExactly(sections: seq<Section>, id: string, section: Section)
    ensures FindSection(sections, id) == Some(section)
        <==> exists i: nat :: IsSection(sections, i, id) && sections[i] == section
  {
    if sections != [] && sections[0].id != Some(id) {
      var rest := sections[1..];
      FindSectionExactly(rest, id, section);
      if i: nat :| IsSection(rest, i, id) && rest[i] == section {
        assert forall j: nat :: 0 < j < i + 1 ==> sections[j] == rest[j - 1];
        assert IsSection(sections, i + 1, id);
      }
      if i: nat :| IsSection(sections, i, id) && sections[i] == section {
        assert forall j: nat :: j < |rest| ==> rest[j] == sections[j + 1];
        assert IsSection(rest, i - 1, id);
      }
    } else if sections != [] {
      assert IsSection(sections, 0, id);
    }
  }

  lemma {:induction false} FindFieldExactly(fields: seq<Field>, key: string, f: Field)
    ensures FindField(fields, key) == Some(f) <==> exists k: nat :: IsField(fields, k, key) && fields[k] == f
  {
    if fields != [] && fields[0].key != Some(key) {
      var rest := fields[1..];
      FindFieldExactly(rest, key, f);
      if k: nat :| IsField(rest, k, key) && rest[k] == f {
        assert forall j: nat :: 0 < j < k + 1 ==> fields[j] == rest[j - 1];
        assert IsField(fields, k + 1, key);
      }
      if k: nat :| IsField(fields, k, key) && fields[k] == f {
        assert forall j: nat :: j < |rest| ==> rest[j] == fields[j + 1];
        assert IsField(rest, k - 1, key);
      }
    } else if fields != [] {
      assert IsField(fields, 0, key);
    }
  }

  lemma ListsExactly(catalog: Catalog, section: string, fields: seq<Field>)
    requires catalog.Some?
    ensures Lists(catalog, section, fields)
        <==> var found := FindSection(catalog.value, section); found.Some? && found.value.fields == Some(fields)
  {
    var found := FindSection(catalog.value, section);
    if found.Some? { FindSectionExactly(catalog.value, section, found.value); }
    if i: nat :| IsSection(catalog.value, i, section) && catalog.value[i].fields == Some(fields) {
      FindSectionExactly(catalog.value, section, catalog.value[i]);
    }
  }

  /** Looking a setting up yields the field that describes it, and nothing when there is none. */
  lemma LookupExactly(catalog: Catalog, section: string, key: string, f: Field)
    ensures Lookup(catalog, section, key) == Some(f) <==> Declares(catalog, section, key, f)
  {
    if catalog.Some? {
      var found := FindSection(catalog.value, section);
      if found.Some? && found.value.fields.Some? {
        ListsExactly(catalog, section, found.value.fields.value);
        FindFieldExactly(found.value.fields.value, key, f);
      }
      if fields, k: nat :| Lists(catalog, section, fields) && IsField(fields, k, key) && fields[k] == f {
        ListsExactly(catalog, section, fields);
        FindFieldExactly(fields, key, f);
      }
    }
  }

  /** A number lies within the bounds its field names. */
  ghost predicate Within(f: Field, x: real) {
    (f.minimum.Some? ==> f.minimum.value <= x) && (f.maximum.Some? ==> x <= f.maximum.value)
  }

  /** What a field admits, kind by kind; a field without a kind, or of any other kind, admits nothing. */
  ghost predicate Admits(f: Field, v: Value) {
    || (f.kind == Some("boolean") && v.Bool?)
    || (f.kind == Some("integer") && v.Int? && -0x8000_0000_0000_0000 <= v.i < 0x1_0000_0000_0000_0000
        && Within(f, v.i as real))
    || (f.kind == Some("number") && v.Int? && Within(f, v.i as real))
    || (f.kind == Some("number") && v.Float? && Within(f, v.f))
    || (f.kind == Some("string") && v.Str?)
    || (f.kind == Some("path") && v.Str?)
    || (f.kind == Some("enum") && v.Str? && f.options.Some? && Some(v.s) in f.options.value)
    || (f.kind == Some("url") && v.Str? && exists rest :: v.s == "http://" + rest || v.s == "https://" + rest)
    || (f.kind == Some("secret_ref") && v.Str? && forall k :: 0 <= k < |v.s| ==>
          'a' <= v.s[k] <= 'z' || 'A' <= v.s[k] <= 'Z' || '0' <= v.s[k] <= '9' || v.s[k] == '_')
    || (f.kind == Some("string_list") && v.List? && forall k :: 0 <= k < |v.items| ==> v.items[k].Str?)
  }

  /** The cascade of checks passes exactly the values the field admits. */
  lemma PassesExactlyWhen(f: Field, v: Value)
    ensures ValidateValue(f, v).None? <==> Admits(f, v)
  {
    if f.kind == Some("url") && v.Str? {
      if "http://" <= v.s { assert v.s == "http://" + v.s[7..]; }
      if "https://" <= v.s { assert v.s == "https://" + v.s[8..]; }
    }
  }

  /** The catalog describes the setting by a field that admits its value. */
  ghost predicate Admissible(catalog: Catalog, section: string, setting: Setting) {
    exists f :: Declares(catalog, section, setting.key, f) && Admits(f, setting.value)
  }

  ghost predicate ChangeIsSound(catalog: Catalog, change: Change) {
    && change.settings.Some?
    && (exists fields :: Lists(catalog, change.section, fields))
    && forall k :: 0 <= k < |change.settings.value| ==> Admissible(catalog, change.section, change.settings.value[k])
  }

  lemma AdmissibleExactly(sections: seq<Section>, fields: seq<Field>, section: string, setting: Setting)
    requires Lists(Some(sections), section, fields)
    ensures SettingFault(fields, section, setting).None? <==> Admissible(Some(sections), section, setting)
  {
    ListsExactly(Some(sections), section, fields);
    var found := FindField(fields, setting.key);
    if found.Some? {
      LookupExactly(Some(sections), section, setting.key, found.value);
      PassesExactlyWhen(found.value, setting.value);
    }
    if f :| Declares(Some(sections), section, setting.key, f) && Admits(f, setting.value) {
      LookupExactly(Some(sections), section, setting.key, f);
    }
  }

  lemma {:induction false} SettingsFaultExactly(fields: seq<Field>, section: string, settings: seq<Setting>)
    ensures SettingsFault(fields, section, settings).None?
        <==> forall k :: 0 <= k < |settings| ==> SettingFault(fields, section, settings[k]).None?
  {
    if settings != [] {
      var front := settings[..|settings| - 1];
      SettingsFaultExactly(fields, section, front);
      assert forall k :: 0 <= k < |front| ==> front[k] == settings[k];
    }
  }

  lemma {:induction false} ChangesFaultEach(sections: seq<Section>, changes: seq<Change>)
    ensures ChangesFault(sections, changes).None?
        <==> forall k :: 0 <= k < |changes| ==> ChangeFault(sections, changes[k]).None?
  {
    if changes != [] {
      var front := changes[..|changes| - 1];
      ChangesFaultEach(sections, front);
      assert forall k :: 0 <= k < |front| ==> front[k] == changes[k];
    }
  }

  lemma ChangesFaultExactly(sections: seq<Section>, changes: seq<Change>)
    ensures ChangesFault(sections, changes).None?
        <==> forall k :: 0 <= k < |changes| ==> ChangeIsSound(Some(sections), changes[k])
  {
    ChangesFaultEach(sections, changes);
    forall k | 0 <= k < |changes|
      ensures ChangeFault(sections, changes[k]).None? <==> ChangeIsSound(Some(sections), changes[k])
    {
      ChangeFaultExactly(sections, changes[k]);
    }
  }

  lemma ChangeFaultExactly(sections: seq<Section>, change: Change)
    ensures ChangeFault(sections, change).None? <==> ChangeIsSound(Some(sections), change)
  {
    var section := FindSection(sections, change.section);
    if section.Some? && section.value.fields.Some? && change.settings.Some? {
      var fields, settings := section.value.fields.value, change.settings.value;
      ListsExactly(Some(sections), change.section, fields);
      SettingsFaultExactly(fields, change.section, settings);
      forall k | 0 <= k < |settings|
        ensures SettingFault(fields, change.section, settings[k]).None?
            <==> Admissible(Some(sections), change.section, settings[k])
      {
        AdmissibleExactly(sections, fields, change.section, settings[k]);
      }
    }
    if fields :| Lists(Some(sections), change.section, fields) {
      ListsExactly(Some(sections), change.section, fields);
    }
  }

  // ---- which fault is reported ----

  /** Setting `k` of the change is the first that is not admissible. */
  ghost predicate FirstBad(catalog: Catalog, change: Change, k: nat)
    requires change.settings.Some?
  {
    && k < |change.settings.value| && !Admissible(catalog, change.section, change.settings.value[k])
    && forall j: nat :: j < k ==> Admissible(catalog, change.section, change.settings.value[j])
  }

  /** The error says what is wrong with the change. */
  ghost predicate Describes(sections: seq<Section>, change: Change, e: Error) {
    var catalog := Some(sections);
    match e
    case UnknownSection(id) => id == change.section && forall i: nat :: !IsSection(sections, i, id)
    case NoFields => exists i: nat :: IsSection(sections, i, change.section) && sections[i].fields.None?
    case SectionNotObject(id) =>
      id == change.section && change.settings.None? && exists fields :: Lists(catalog, id, fields)
    case UnknownSetting(id, key) =>
      && id == change.section && change.settings.Some?
      && (exists k: nat :: FirstBad(catalog, change, k) && change.settings.value[k].key == key)
      && forall f :: !Declares(catalog, id, key, f)
    case BadValue(id, key, _) =>
      && id == change.section && change.settings.Some?
      && (exists k: nat :: FirstBad(catalog, change, k) && change.settings.value[k].key == key)
      && exists f :: Declares(catalog, id, key, f)
    case _ => false
  }

  lemma {:induction false} FirstFaultOf(fields: seq<Field>, section: string, settings: seq<Setting>) returns (k: nat)
    requires SettingsFault(fields, section, settings).Some?
    ensures k < |settings| && SettingFault(fields, section, settings[k]) == SettingsFault(fields, section, settings)
    ensures forall j: nat :: j < k ==> SettingFault(fields, section, settings[j]).None?
  {
    var n := |settings| - 1;
    SettingsFaultExactly(fields, section, settings[..n]);
    if SettingsFault(fields, section, settings[..n]).Some? {
      k := FirstFaultOf(fields, section, settings[..n]);
      assert forall j: nat :: j <= k ==> settings[..n][j] == settings[j];
    } else {
      k := n;
      assert forall j: nat :: j < n ==> settings[..n][j] == settings[j];
    }
  }

  lemma SectionIsFound(sections: seq<Section>, id: string)
    ensures FindSection(sections, id).None? <==> forall i: nat :: !IsSection(sections, i, id)
    ensures FindSection(sections, id).Some? ==>
              exists i: nat :: IsSection(sections, i, id) && sections[i] == FindSection(sections, id).value
  {
    var found := FindSection(sections, id);
    if found.Some? { FindSectionExactly(sections, id, found.value); }
    if i: nat :| IsSection(sections, i, id) { FindSectionExactly(sections, id, sections[i]); }
  }

  lemma SettingIsDescribed(sections: seq<Section>, fields: seq<Field>, change: Change)
    requires Lists(Some(sections), change.section, fields) && change.settings.Some?
    requires SettingsFault(fields, change.section, change.settings.value).Some?
    ensures Describes(sections, change, SettingsFault(fields, change.section, change.settings.value).value)
  {
    var catalog, settings := Some(sections), change.settings.value;
    var k := FirstFaultOf(fields, change.section, settings);
    forall j: nat | j <= k
      ensures SettingFault(fields, change.section, settings[j]).None?
          <==> Admissible(catalog, change.section, settings[j])
    {
      AdmissibleExactly(sections, fields, change.section, settings[j]);
    }
    assert FirstBad(catalog, change, k);
    ListsExactly(catalog, change.section, fields);
    var found, key := FindField(fields, settings[k].key), settings[k].key;
    if found.Some? {
      LookupExactly(catalog, change.section, key, found.value);
    } else {
      forall f ensures !Declares(catalog, change.section, key, f) { LookupExactly(catalog, change.section, key, f); }
    }
  }

  lemma ChangeIsDescribed(sections: seq<Section>, change: Change)
    requires ChangeFault(sections, change).Some?
    ensures Describes(sections, change, ChangeFault(sections, change).value)
  {
    var section := FindSection(sections, change.section);
    SectionIsFound(sections, change.section);
    if section.Some? && section.value.fields.Some? {
      ListsExactly(Some(sections), change.section, section.value.fields.value);
      if change.settings.Some? { SettingIsDescribed(sections, section.value.fields.value, change); }
    }
  }

  /** The fault reported is that of the first change that is not sound, and says what is wrong with it. */
  lemma {:induction false} FirstFaultIsReported(sections: seq<Section>, changes: seq<Change>) returns (i: nat)
    requires ChangesFault(sections, changes).Some?
    ensures i < |changes| && !ChangeIsSound(Some(sections), changes[i])
    ensures forall j: nat :: j < i ==> ChangeIsSound(Some(sections), changes[j])
    ensures Describes(sections, changes[i], ChangesFault(sections, changes).value)
  {
    var n := |changes| - 1;
    var front := changes[..n];
    if ChangesFault(sections, front).Some? {
      i := FirstFaultIsReported(sections, front);
      assert forall j: nat :: j <= i ==> front[j] == changes[j];
    } else {
      i := n;
      ChangesFaultExactly(sections, front);
      assert forall j: nat :: j < n ==> front[j] == changes[j];
      ChangeFaultExactly(sections, changes[n]);
      ChangeIsDescribed(sections, changes[n]);
    }
  }

  // ---- which sections ask for a restart ----

  predicate NeedsRestart(catalog: Catalog, section: string, setting: Setting) {
    var field := Lookup(catalog, section, setting.key);
    field.Some? && field.value.applyMode.Some? && field.value.applyMode.value != "live"
  }

  function Pushed(catalog: Catalog, section: string, settings: seq<Setting>): seq<string> {
    if settings == [] then []
    else
      Pushed(catalog, section, settings[..|settings| - 1])
      + if NeedsRestart(catalog, section, settings[|settings| - 1]) then [section] else []
  }

  function AllPushed(catalog: Catalog, changes: seq<Change>): seq<string> {
    if changes == [] then []
    else
      var last := changes[|changes| - 1];
      AllPushed(catalog, changes[..|changes| - 1])
      + if last.settings.Some? then Pushed(catalog, last.section, last.settings.value) else []
  }

  function Insert(s: seq<string>, x: string): seq<string> {
    if s == [] || !Less(x, s[|s| - 1]) then s + [x]
    else Insert(s[..|s| - 1], x) + [s[|s| - 1]]
  }

  function Sort(s: seq<string>): seq<string> {
    if s == [] then [] else Insert(Sort(s[..|s| - 1]), s[|s| - 1])
  }

  function Dedup(s: seq<string>): seq<string> {
    if |s| <= 1 then s
    else
      var n := |s| - 1;
      Dedup(s[..n]) + if s[n] == s[n - 1] then [] else [s[n]]
  }

  ghost predicate Ascending(s: seq<string>) {
    forall i, j :: 0 <= i < j < |s| ==> !Less(s[j], s[i])
  }

  ghost predicate StrictlyAscending(s: seq<string>) {
    forall i, j :: 0 <= i < j < |s| ==> Less(s[i], s[j])
  }

  lemma {:induction false} InsertFacts(s: seq<string>, x: string)
    requires Ascending(s)
    ensures Ascending(Insert(s, x))
    ensures forall y :: y in Insert(s, x) <==> y in s || y == x
  {
    if s != [] {
      var front, last := s[..|s| - 1], s[|s| - 1];
      assert s == front + [last];
      if Less(x, last) {
        InsertFacts(front, x);
        var inner := Insert(front, x);
        forall i | 0 <= i < |inner| ensures !Less(last, inner[i]) {
          assert inner[i] in inner;
          LessIsTotal(x, last);
        }
      } else {
        forall i | 0 <= i < |s| ensures !Less(x, s[i]) {
          LessIsTotal(s[i], last);
          if Less(x, s[i]) && i < |s| - 1 && Less(s[i], last) { LessIsTransitive(x, s[i], last); }
        }
      }
    }
  }

  lemma {:induction false} SortFacts(s: seq<string>)
    ensures Ascending(Sort(s))
    ensures forall y :: y in Sort(s) <==> y in s
  {
    if s != [] {
      SortFacts(s[..|s| - 1]);
      InsertFacts(Sort(s[..|s| - 1]), s[|s| - 1]);
      assert s == s[..|s| - 1] + [s[|s| - 1]];
    }
  }

  lemma {:induction false} DedupFacts(s: seq<string>)
    requires Ascending(s)
    ensures StrictlyAscending(Dedup(s))
    ensures forall y :: y in Dedup(s) <==> y in s
  {
    if |s| > 1 {
      var n := |s| - 1;
      var front := s[..n];
      assert s == front + [s[n]];
      DedupFacts(front);
      if s[n] != s[n - 1] {
        forall i | 0 <= i < |Dedup(front)| ensures Less(Dedup(front)[i], s[n]) {
          assert Dedup(front)[i] in front;
          var j :| 0 <= j < n && front[j] == Dedup(front)[i];
          BelowAStep(s[j], s[n - 1], s[n], j == n - 1);
        }
      } else {
        assert front[n - 1] == s[n];
      }
    }
  }

  lemma BelowAStep(a: string, b: string, c: string, same: bool)
    requires if same then a == b else !Less(b, a)
    requires !Less(c, b) && b != c
    ensures Less(a, c)
  {
    LessIsTotal(a, b);
    LessIsTotal(b, c);
    if a != b { LessIsTransitive(a, b, c); }
  }

  function RestartSections(catalog: Catalog, changes: seq<Change>): seq<string> {
    Dedup(Sort(AllPushed(catalog, changes)))
  }

  /** The field that describes the setting names a way of applying it other than at once. */
  ghost predicate AppliedLater(catalog: Catalog, section: string, key: string) {
    exists f :: Declares(catalog, section, key, f) && f.applyMode.Some? && f.applyMode != Some("live")
  }

  lemma NeedsRestartWhen(catalog: Catalog, section: string, setting: Setting)
    ensures NeedsRestart(catalog, section, setting) <==> AppliedLater(catalog, section, setting.key)
  {
    var found := Lookup(catalog, section, setting.key);
    if found.Some? { LookupExactly(catalog, section, setting.key, found.value); }
    if f :| Declares(catalog, section, setting.key, f) && f.applyMode.Some? && f.applyMode != Some("live") {
      LookupExactly(catalog, section, setting.key, f);
    }
  }

  /** Section `id` has a changed field whose catalog entry asks for more than a live update. */
  ghost predicate ChangesNonLive(catalog: Catalog, changes: seq<Change>, id: string) {
    exists i, k :: 0 <= i < |changes| && changes[i].section == id && changes[i].settings.Some?
                   && 0 <= k < |changes[i].settings.value|
                   && AppliedLater(catalog, id, changes[i].settings.value[k].key)
  }

  lemma {:induction false} PushedExactly(catalog: Catalog, section: string, settings: seq<Setting>, id: string)
    ensures id in Pushed(catalog, section, settings)
        <==> id == section && exists k :: 0 <= k < |settings| && AppliedLater(catalog, section, settings[k].key)
  {
    if settings != [] {
      NeedsRestartWhen(catalog, section, settings[|settings| - 1]);
      var front := settings[..|settings| - 1];
      PushedExactly(catalog, section, front, id);
      assert forall k :: 0 <= k < |front| ==> front[k] == settings[k];
    }
  }

  lemma {:induction false} AllPushedExactly(catalog: Catalog, changes: seq<Change>, id: string)
    ensures id in AllPushed(catalog, changes) <==> ChangesNonLive(catalog, changes, id)
  {
    if changes != [] {
      var front, last := changes[..|changes| - 1], changes[|changes| - 1];
      AllPushedExactly(catalog, front, id);
      assert forall k :: 0 <= k < |front| ==> front[k] == changes[k];
      if last.settings.Some? { PushedExactly(catalog, last.section, last.settings.value, id); }
    }
  }

  /** `restart_required` is the sorted, duplicate-free list of sections with a changed non-live field. */
  lemma RestartIsExact(catalog: Catalog, changes: seq<Change>)
    ensures StrictlyAscending(RestartSections(catalog, changes))
    ensures forall id :: id in RestartSections(catalog, changes) <==> ChangesNonLive(catalog, changes, id)
  {
    var pushed := AllPushed(catalog, changes);
    SortFacts(pushed);
    DedupFacts(Sort(pushed));
    forall id ensures id in pushed <==> ChangesNonLive(catalog, changes, id) {
      AllPushedExactly(catalog, changes, id);
    }
  }

  // ---- merging and the revision ----

  function Inserted(values: map<string, Value>, settings: seq<Setting>): map<string, Value> {
    if settings == [] then values
    else
      var last := settings[|settings| - 1];
      Inserted(values, settings[..|settings| - 1])[last.key := last.value]
  }

  /** The components after the changes, or nothing when a section's override is no object. */
  function Merged(components: map<string, Override>, changes: seq<Change>): Result<map<string, Override>> {
    if changes == [] then Ok(components)
    else
      var last := changes[|changes| - 1];
      var front := Merged(components, changes[..|changes| - 1]);
      if front.Err? || last.settings.None? then front
      else if last.section !in front.value then
        Ok(front.value[last.section := Settings(Inserted(map[], last.settings.value))])
      else match front.value[last.section]
        case NotObject => Err(BrokenOverride(last.section))
        case Settings(values) => Ok(front.value[last.section := Settings(Inserted(values, last.settings.value))])
  }

  function Bumped(revision: nat): nat {
    if revision >= MAX_U64 then MAX_U64 else revision + 1
  }

  datatype Reply = Reply(snapshot: Overlay, restart: seq<string>)

  class Store {
    const catalog: Catalog
    var overlay: Overlay

    constructor (c: Catalog, initial: Overlay)
      ensures catalog == c && overlay == initial
    {
      catalog, overlay := c, initial;
    }

    method CheckSettings(fields: seq<Field>, section: string, settings: seq<Setting>)
        returns (fault: Option<Error>, pushed: seq<string>)
      requires catalog.Some? && FindSection(catalog.value, section).Some?
      requires FindSection(catalog.value, section).value.fields == Some(fields)
      ensures fault == SettingsFault(fields, section, settings)
      ensures fault.None? ==> pushed == Pushed(catalog, section, settings)
    {
      fault, pushed := None, [];
      for i := 0 to |settings|
        invariant fault.None? && SettingsFault(fields, section, settings[..i]).None?
        invariant pushed == Pushed(catalog, section, settings[..i])
      {
        assert settings[..i + 1][..i] == settings[..i];
        fault := SettingFault(fields, section, settings[i]);
        if fault.Some? {
          FaultStays(fields, section, settings, i + 1);
          return;
        }
        if NeedsRestart(catalog, section, settings[i]) { pushed := pushed + [section]; }
      }
      assert settings[..|settings|] == settings;
    }

    method ValidateChangeRequest(request: Request) returns (r: Result<seq<string>>)
      ensures r.Ok? ==> RequestFault(request, overlay.revision, catalog).None?
                        && r.value == RestartSections(catalog, request.changes.value)
      ensures r.Err? ==> RequestFault(request, overlay.revision, catalog) == Some(r.error)
    {
      if request.expected.None? { return Err(MissingRevision); }
      if request.expected.value != overlay.revision {
        return Err(Conflict(request.expected.value, overlay.revision));
      }
      if request.changes.None? { return Err(ChangesNotObject); }
      if catalog.None? { return Err(NoSections); }
      var changes, restart := request.changes.value, [];
      for i := 0 to |changes|
        invariant ChangesFault(catalog.value, changes[..i]).None?
        invariant restart == AllPushed(catalog, changes[..i])
      {
        var change := changes[i];
        assert changes[..i + 1][..i] == changes[..i];
        var section := FindSection(catalog.value, change.section);
        ghost var fault := ChangeFault(catalog.value, change);
        if fault.Some? { ChangeFaultStays(catalog.value, changes, i + 1); }
        if section.None? { return Err(UnknownSection(change.section)); }
        if section.value.fields.None? { return Err(NoFields); }
        if change.settings.None? { return Err(SectionNotObject(change.section)); }
        var bad, pushed := CheckSettings(section.value.fields.value, change.section, change.settings.value);
        if bad.Some? { return Err(bad.value); }
        restart := restart + pushed;
      }
      assert changes[..|changes|] == changes;
      return Ok(Dedup(Sort(restart)));
    }

    /** Edits a working copy; the copy is thrown away on error. */
    method MergeChanges(components: map<string, Override>, changes: seq<Change>)
        returns (r: Result<map<string, Override>>)
      requires forall k :: 0 <= k < |changes| ==> changes[k].settings.Some?
      ensures r == Merged(components, changes)
    {
      var edited := components;
      for i := 0 to |changes|
        invariant Merged(components, changes[..i]) == Ok(edited)
      {
        assert changes[..i + 1][..i] == changes[..i];
        var target := map[];
        if changes[i].section in edited {
          match edited[changes[i].section] {
            case NotObject =>
              MergeErrorStays(components, changes, i + 1);
              return Err(BrokenOverride(changes[i].section));
            case Settings(values) => target := values;
          }
        }
        var settings := changes[i].settings.value;
        ghost var before := target;
        for k := 0 to |settings|
          invariant target == Inserted(before, settings[..k])
        {
          assert settings[..k + 1][..k] == settings[..k];
          target := target[settings[k].key := settings[k].value];
        }
        assert settings[..|settings|] == settings;
        edited := edited[changes[i].section := Settings(target)];
      }
      assert changes[..|changes|] == changes;
      return Ok(edited);
    }

    method Put(request: Request) returns (r: Result<Reply>)
      modifies this
      ensures overlay == AfterPut(catalog, old(overlay), request)
      ensures r.Ok? <==> Accepts(catalog, old(overlay), request)
      ensures r.Ok? ==> r.value == Reply(overlay, RestartSections(catalog, request.changes.value))
      ensures r.Err? && r.error.Conflict?
          <==> request.expected.Some? && request.expected.value != old(overlay.revision)
    {
      var checked := ValidateChangeRequest(request);
      if RequestFault(request, overlay.revision, catalog).Some? {
        ConflictExactly(request, overlay.revision, catalog);
        return Err(checked.error);
      }
      ChangesFaultExactly(catalog.value, request.changes.value);
      var merged := MergeChanges(overlay.components, request.changes.value);
      if merged.Err? {
        MergeErrors(overlay.components, request.changes.value);
        return Err(merged.error);
      }
      overlay := Overlay(Bumped(overlay.revision), merged.value);
      return Ok(Reply(overlay, checked.value));
    }
  }

  lemma {:induction false} FaultStays(fields: seq<Field>, section: string, settings: seq<Setting>, k: nat)
    requires k <= |settings| && SettingsFault(fields, section, settings[..k]).Some?
    ensures SettingsFault(fields, section, settings) == SettingsFault(fields, section, settings[..k])
    decreases |settings| - k
  {
    if k < |settings| {
      assert settings[..k + 1][..k] == settings[..k];
      FaultStays(fields, section, settings, k + 1);
    } else {
      assert settings[..k] == settings;
    }
  }

  lemma {:induction false} ChangeFaultStays(sections: seq<Section>, changes: seq<Change>, k: nat)
    requires k <= |changes| && ChangesFault(sections, changes[..k]).Some?
    ensures ChangesFault(sections, changes) == ChangesFault(sections, changes[..k])
    decreases |changes| - k
  {
    if k < |changes| {
      assert changes[..k + 1][..k] == changes[..k];
      ChangeFaultStays(sections, changes, k + 1);
    } else {
      assert changes[..k] == changes;
    }
  }

  lemma {:induction false} MergeErrorStays(components: map<string, Override>, changes: seq<Change>, k: nat)
    requires k <= |changes| && Merged(components, changes[..k]).Err?
    ensures Merged(components, changes) == Merged(components, changes[..k])
    decreases |changes| - k
  {
    if k < |changes| {
      assert changes[..k + 1][..k] == changes[..k];
      MergeErrorStays(components, changes, k + 1);
    } else {
      assert changes[..k] == changes;
    }
  }

  lemma {:induction false} MergeErrors(components: map<string, Override>, changes: seq<Change>)
    ensures var r := Merged(components, changes); r.Err? ==> r.error.BrokenOverride?
  {
    if changes != [] { MergeErrors(components, changes[..|changes| - 1]); }
  }

  lemma {:induction false} NoConflictBelow(sections: seq<Section>, changes: seq<Change>)
    ensures var e := ChangesFault(sections, changes); e.Some? ==> !e.value.Conflict?
  {
    if changes != [] {
      NoConflictBelow(sections, changes[..|changes| - 1]);
      var last := changes[|changes| - 1];
      var section := FindSection(sections, last.section);
      if section.Some? && section.value.fields.Some? && last.settings.Some? {
        NoConflictInside(section.value.fields.value, last.section, last.settings.value);
      }
    }
  }

  lemma {:induction false} NoConflictInside(fields: seq<Field>, section: string, settings: seq<Setting>)
    ensures var e := SettingsFault(fields, section, settings); e.Some? ==> !e.value.Conflict?
  {
    if settings != [] { NoConflictInside(fields, section, settings[..|settings| - 1]); }
  }

  lemma ConflictExactly(request: Request, revision: nat, catalog: Catalog)
    ensures var e := RequestFault(request, revision, catalog);
            e.Some? && e.value.Conflict? <==> request.expected.Some? && request.expected.value != revision
  {
    if request.changes.Some? && catalog.Some? { NoConflictBelow(catalog.value, request.changes.value); }
  }

  // ---- runs of requests ----

  predicate Accepts(catalog: Catalog, overlay: Overlay, request: Request) {
    RequestFault(request, overlay.revision, catalog).None? && Merged(overlay.components, request.changes.value).Ok?
  }

  function AfterPut(catalog: Catalog, overlay: Overlay, request: Request): Overlay {
    if Accepts(catalog, overlay, request) then
      Overlay(Bumped(overlay.revision), Merged(overlay.components, request.changes.value).value)
    else overlay
  }

  function After(catalog: Catalog, initial: Overlay, puts: seq<Request>): Overlay {
    if puts == [] then initial
    else AfterPut(catalog, After(catalog, initial, puts[..|puts| - 1]), puts[|puts| - 1])
  }

  predicate Accepted(catalog: Catalog, initial: Overlay, puts: seq<Request>, i: nat)
    requires i < |puts|
  {
    Accepts(catalog, After(catalog, initial, puts[..i]), puts[i])
  }

  /** How many of the requests were accepted. */
  function AcceptedCount(catalog: Catalog, initial: Overlay, puts: seq<Request>): nat {
    if puts == [] then 0
    else
      var n := |puts| - 1;
      AcceptedCount(catalog, initial, puts[..n])
      + if Accepts(catalog, After(catalog, initial, puts[..n]), puts[n]) then 1 else 0
  }

  /** The revision counts the accepted requests, up to the largest 64-bit number. */
  lemma {:induction false} RevisionCountsAccepted(catalog: Catalog, initial: Overlay, puts: seq<Request>)
    requires initial.revision <= MAX_U64
    ensures var total := initial.revision + AcceptedCount(catalog, initial, puts);
            After(catalog, initial, puts).revision == if total <= MAX_U64 then total else MAX_U64
  {
    if puts != [] { RevisionCountsAccepted(catalog, initial, puts[..|puts| - 1]); }
  }

  lemma {:induction false} RevisionGrows(catalog: Catalog, initial: Overlay, puts: seq<Request>, i: nat, j: nat)
    requires i <= j <= |puts| && initial.revision <= MAX_U64
    ensures After(catalog, initial, puts[..i]).revision <= After(catalog, initial, puts[..j]).revision <= MAX_U64
    ensures i < j && Accepted(catalog, initial, puts, i)
        ==> After(catalog, initial, puts[..i]).revision < After(catalog, initial, puts[..j]).revision
            || After(catalog, initial, puts[..i]).revision == MAX_U64
  {
    if i < j {
      assert puts[..j][..j - 1] == puts[..j - 1];
      RevisionGrows(catalog, initial, puts, i, j - 1);
    } else {
      RevisionCountsAccepted(catalog, initial, puts[..i]);
    }
  }

  /** Two accepted requests name the same revision exactly when the revision can grow no more. */
  lemma SharedRevisionOnlyAtTheTop(catalog: Catalog, initial: Overlay, puts: seq<Request>, i: nat, j: nat)
    requires i < j < |puts| && initial.revision <= MAX_U64
    requires Accepted(catalog, initial, puts, i) && Accepted(catalog, initial, puts, j)
    ensures puts[i].expected == puts[j].expected <==> puts[i].expected == Some(MAX_U64)
  {
    RevisionGrows(catalog, initial, puts, i, j);
  }

  const ONE_SWITCH: Catalog :=
    Some([Section(Some("ui"), Some([Field(Some("dark"), Some("boolean"), None, None, None, None)]))])

  ghost function Switch(on: bool): Request {
    Request(Some(MAX_U64), Some([Change("ui", Some([Setting("dark", Bool(on))]))]))
  }

  lemma SwitchIsAccepted(components: map<string, Override>, on: bool)
    requires "ui" in components ==> components["ui"].Settings?
    ensures Accepts(ONE_SWITCH, Overlay(MAX_U64, components), Switch(on))
  {
    var changes := Switch(on).changes.value;
    var fields := ONE_SWITCH.value[0].fields.value;
    assert IsSection(ONE_SWITCH.value, 0, "ui") && IsField(fields, 0, "dark");
    assert Lists(ONE_SWITCH, "ui", fields);
    assert Declares(ONE_SWITCH, "ui", "dark", fields[0]) && Admits(fields[0], Bool(on));
    assert ChangeIsSound(ONE_SWITCH, changes[0]);
    ChangesFaultExactly(ONE_SWITCH.value, changes);
    MergesExactlyWhen(components, changes);
  }

  /** It happens: once the revision is at its maximum, a client overwrites what it has not seen. */
  lemma RevisionIsShared() returns (puts: seq<Request>)
    ensures puts == [Switch(true), Switch(false)] && puts[0].expected == puts[1].expected
    ensures var initial := Overlay(MAX_U64, map[]);
            Accepted(ONE_SWITCH, initial, puts, 0) && Accepted(ONE_SWITCH, initial, puts, 1)
  {
    var initial := Overlay(MAX_U64, map[]);
    puts := [Switch(true), Switch(false)];
    assert puts[..0] == [] && puts[..1] == [Switch(true)] && [Switch(true)][..0] == [];
    SwitchIsAccepted(map[], true);
    MergesExactlyWhen(map[], Switch(true).changes.value);
    SwitchIsAccepted(After(ONE_SWITCH, initial, [Switch(true)]).components, false);
    assert After(ONE_SWITCH, initial, []) == initial;
    RevisionCountsAccepted(ONE_SWITCH, initial, [Switch(true)]);
  }

  // ---- what is stored ----

  function ValueAt(components: map<string, Override>, section: string, key: string): Option<Value> {
    if section in components && components[section].Settings? && key in components[section].values then
      Some(components[section].values[key])
    else None
  }

  function WrittenIn(settings: seq<Setting>, key: string): Option<Value> {
    if settings == [] then None
    else if settings[|settings| - 1].key == key then Some(settings[|settings| - 1].value)
    else WrittenIn(settings[..|settings| - 1], key)
  }

  /** The value the changes give to a setting, if they name it. */
  function Written(changes: seq<Change>, section: string, key: string): Option<Value> {
    if changes == [] then None
    else
      var last := changes[|changes| - 1];
      var here := if last.section == section && last.settings.Some? then WrittenIn(last.settings.value, key) else None;
      if here.Some? then here else Written(changes[..|changes| - 1], section, key)
  }

  lemma {:induction false} InsertedFacts(values: map<string, Value>, settings: seq<Setting>, key: string)
    ensures var after, written := Inserted(values, settings), WrittenIn(settings, key);
            && (key in after <==> written.Some? || key in values)
            && (key in after ==> after[key] == if written.Some? then written.value else values[key])
  {
    if settings != [] { InsertedFacts(values, settings[..|settings| - 1], key); }
  }

  lemma {:induction false} MergeWrites(components: map<string, Override>, changes: seq<Change>,
                                       section: string, key: string)
    requires Merged(components, changes).Ok?
    ensures var written := Written(changes, section, key);
            ValueAt(Merged(components, changes).value, section, key)
            == if written.Some? then written else ValueAt(components, section, key)
  {
    if changes != [] {
      var front, last := changes[..|changes| - 1], changes[|changes| - 1];
      MergeWrites(components, front, section, key);
      if last.settings.Some? {
        var before := Merged(components, front).value;
        InsertedFacts(if last.section in before then before[last.section].values else map[], last.settings.value, key);
      }
    }
  }

  /** A request naming no broken section is merged; one that names one is not. */
  lemma {:induction false} MergesExactlyWhen(components: map<string, Override>, changes: seq<Change>)
    requires forall k :: 0 <= k < |changes| ==> changes[k].settings.Some?
    ensures Merged(components, changes).Ok?
        <==> forall k :: 0 <= k < |changes| && changes[k].section in components
                         ==> components[changes[k].section].Settings?
    ensures Merged(components, changes).Ok? ==>
              var after := Merged(components, changes).value;
              forall s :: s in after ==> after[s].Settings? || (s in components && after[s] == components[s])
    ensures Merged(components, changes).Ok? ==>
              forall s :: s in components && components[s].NotObject? ==>
                s in Merged(components, changes).value && Merged(components, changes).value[s].NotObject?
  {
    if changes != [] {
      var front, last := changes[..|changes| - 1], changes[|changes| - 1];
      assert forall k :: 0 <= k < |front| ==> front[k] == changes[k];
      MergesExactlyWhen(components, front);
    }
  }

  /**
    What the validation endpoint calls valid is applied, unless it names a section whose stored
    override is no object.
  */
  lemma ValidatedIsAppliedWhen(catalog: Catalog, overlay: Overlay, request: Request)
    requires RequestFault(request, overlay.revision, catalog).None?
    ensures var changes := request.changes.value;
            Accepts(catalog, overlay, request)
            <==> forall k :: 0 <= k < |changes| && changes[k].section in overlay.components
                             ==> overlay.components[changes[k].section].Settings?
  {
    ChangesFaultExactly(catalog.value, request.changes.value);
    MergesExactlyWhen(overlay.components, request.changes.value);
  }

  /** It happens: the request is called valid, but the section it names is stored as no object. */
  lemma ValidatedIsNotApplied() returns (catalog: Catalog, overlay: Overlay, request: Request)
    ensures RequestFault(request, overlay.revision, catalog).None? && !Accepts(catalog, overlay, request)
  {
    var change := Change("x", Some([]));
    catalog := Some([Section(Some("x"), Some([]))]);
    overlay := Overlay(0, map["x" := NotObject]);
    request := Request(Some(0), Some([change]));
    ChangesFaultExactly(catalog.value, [change]);
    ValidatedIsAppliedWhen(catalog, overlay, request);
    assert overlay.components[request.changes.value[0].section].NotObject?;
  }

  /** Request `i` is the last accepted one to name the setting. */
  ghost predicate LatestWriter(catalog: Catalog, initial: Overlay, puts: seq<Request>, i: nat,
                               section: string, key: string)
    requires i < |puts|
  {
    && Accepted(catalog, initial, puts, i) && Written(puts[i].changes.value, section, key).Some?
    && forall j: nat :: i < j < |puts| && Accepted(catalog, initial, puts, j)
         ==> Written(puts[j].changes.value, section, key).None?
  }

  ghost predicate NeverWritten(catalog: Catalog, initial: Overlay, puts: seq<Request>, section: string, key: string) {
    forall j: nat :: j < |puts| && Accepted(catalog, initial, puts, j)
      ==> Written(puts[j].changes.value, section, key).None?
  }

  lemma AcceptedPrefix(catalog: Catalog, initial: Overlay, puts: seq<Request>, i: nat)
    requires i < |puts| - 1
    ensures Accepted(catalog, initial, puts, i) <==> Accepted(catalog, initial, puts[..|puts| - 1], i)
  {
    assert puts[..|puts| - 1][..i] == puts[..i];
  }

  /** The last request either writes the setting or leaves it as it was. */
  lemma LastPut(catalog: Catalog, initial: Overlay, puts: seq<Request>, section: string, key: string)
    requires puts != []
    ensures var n := |puts| - 1;
            ValueAt(After(catalog, initial, puts).components, section, key)
            == if Accepted(catalog, initial, puts, n) && Written(puts[n].changes.value, section, key).Some?
               then Written(puts[n].changes.value, section, key)
               else ValueAt(After(catalog, initial, puts[..n]).components, section, key)
  {
    var n := |puts| - 1;
    if Accepted(catalog, initial, puts, n) {
      MergeWrites(After(catalog, initial, puts[..n]).components, puts[n].changes.value, section, key);
    }
  }

  /** A stored value is the one given by the latest accepted request naming the setting. */
  lemma {:induction false} StoredIsLatestWritten(catalog: Catalog, initial: Overlay, puts: seq<Request>, i: nat,
                                                 section: string, key: string)
    requires i < |puts| && LatestWriter(catalog, initial, puts, i, section, key)
    ensures ValueAt(After(catalog, initial, puts).components, section, key)
         == Written(puts[i].changes.value, section, key)
  {
    LastPut(catalog, initial, puts, section, key);
    if i < |puts| - 1 {
      var front := puts[..|puts| - 1];
      forall j: nat | j < |front|
        ensures Accepted(catalog, initial, puts, j) <==> Accepted(catalog, initial, front, j)
      {
        AcceptedPrefix(catalog, initial, puts, j);
      }
      StoredIsLatestWritten(catalog, initial, front, i, section, key);
    }
  }

  /** A setting no accepted request names keeps its initial value, or its absence. */
  lemma {:induction false} UnwrittenIsInitial(catalog: Catalog, initial: Overlay, puts: seq<Request>,
                                              section: string, key: string)
    requires NeverWritten(catalog, initial, puts, section, key)
    ensures ValueAt(After(catalog, initial, puts).components, section, key) == ValueAt(initial.components, section, key)
  {
    if puts != [] {
      LastPut(catalog, initial, puts, section, key);
      var front := puts[..|puts| - 1];
      forall j: nat | j < |front|
        ensures Accepted(catalog, initial, puts, j) <==> Accepted(catalog, initial, front, j)
      {
        AcceptedPrefix(catalog, initial, puts, j);
      }
      UnwrittenIsInitial(catalog, initial, front, section, key);
    }
  }

  lemma {:induction false} WrittenInOccurs(settings: seq<Setting>, key: string)
    requires WrittenIn(settings, key).Some?
    ensures Setting(key, WrittenIn(settings, key).value) in settings
  {
    if settings[|settings| - 1].key != key { WrittenInOccurs(settings[..|settings| - 1], key); }
  }

  lemma {:induction false} WrittenIsAdmissible(catalog: Catalog, changes: seq<Change>, section: string, key: string)
    requires forall k :: 0 <= k < |changes| ==> ChangeIsSound(catalog, changes[k])
    requires Written(changes, section, key).Some?
    ensures Admissible(catalog, section, Setting(key, Written(changes, section, key).value))
  {
    var front, last := changes[..|changes| - 1], changes[|changes| - 1];
    if last.section == section && last.settings.Some? && WrittenIn(last.settings.value, key).Some? {
      WrittenInOccurs(last.settings.value, key);
    } else {
      WrittenIsAdmissible(catalog, front, section, key);
    }
  }

  /** Whatever a run of requests stores has passed the catalog check; nothing else changes a value. */
  lemma {:induction false} StoredIsChecked(catalog: Catalog, initial: Overlay, puts: seq<Request>,
                                           section: string, key: string)
    ensures var stored := ValueAt(After(catalog, initial, puts).components, section, key);
            stored == ValueAt(initial.components, section, key)
            || (stored.Some? && Admissible(catalog, section, Setting(key, stored.value)))
  {
    if puts != [] {
      var n := |puts| - 1;
      var before := After(catalog, initial, puts[..n]);
      StoredIsChecked(catalog, initial, puts[..n], section, key);
      if Accepts(catalog, before, puts[n]) {
        var changes := puts[n].changes.value;
        MergeWrites(before.components, changes, section, key);
        ChangesFaultExactly(catalog.value, changes);
        if Written(changes, section, key).Some? { WrittenIsAdmissible(catalog, changes, section, key); }
      }
    }
  }
}
