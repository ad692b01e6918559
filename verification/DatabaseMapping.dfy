/** The mapping of two database sources onto the six fixed fields: from configuration, merged with
    a model's answer, validated, stored as a checkpoint and checked again before normalisation. */
module DatabaseMapping {
  import opened Actions
  import opened Distinctness
  import opened Wrappers

  datatype Field = Category | Name | Number | ClassName | Phone | Email

  const FIXED_FIELDS: set<Field> := {Category, Name, Number, ClassName, Phone, Email}
  const FIELD_ORDER: seq<Field> := [Category, Name, Number, ClassName, Phone, Email]

  datatype Normalizer = NormalizeCategory | TrimText | TrimIdentifier | NormalizePhone | NormalizeEmail

  datatype EntityKinds = StudentsOnly | AllKinds

  function NormalizerFor(f: Field): Normalizer {
    match f
    case Category => NormalizeCategory
    case Name => TrimText
    case Number => TrimIdentifier
    case ClassName => TrimText
    case Phone => NormalizePhone
    case Email => NormalizeEmail
  }

  function EntityKindsFor(f: Field): EntityKinds {
    if f == ClassName then StudentsOnly else AllKinds
  }

  datatype FieldMapping = FieldMapping(ref: nat, field: Field, kinds: EntityKinds, normalizer: Normalizer)

  /** An entry of the unresolved list: a role and a fixed field, or a text with some other field
      whose prefix may still name a role. */
  datatype Unresolved = Missing(role: Role, field: Field) | Odd(prefix: Option<Role>)

  datatype Output = Output(version: nat, authoritative: seq<FieldMapping>, target: seq<FieldMapping>, unresolved: seq<Unresolved>)

  function MappingsOf(o: Output, role: Role): seq<FieldMapping> {
    if role == Authoritative then o.authoritative else o.target
  }

  function PrefixOf(u: Unresolved): Option<Role> {
    if u.Missing? then Some(u.role) else u.prefix
  }

  /** Per database role: the columns behind each reference, and the configured mapping. */
  type References = map<Role, map<nat, nat>>
  type Configured = map<Role, map<Field, nat>>

  ghost predicate OneRefPerColumn(refs: map<nat, nat>) {
    forall r, s :: r in refs && s in refs && refs[r] == refs[s] ==> r == s
  }

  // ----- From configuration to output -----

  /** The reference of a column, if the schema has that column. */
  ghost function RefOf(refs: map<nat, nat>, column: nat): (r: Option<nat>)
    ensures r.Some? ==> r.value in refs && refs[r.value] == column
    ensures r.None? ==> forall x :: x in refs ==> refs[x] != column
  {
    if exists x :: x in refs && refs[x] == column then
      var x :| x in refs && refs[x] == column;
      Some(x)
    else None
  }

  function Configure(f: Field, ref: nat): FieldMapping {
    FieldMapping(ref, f, EntityKindsFor(f), NormalizerFor(f))
  }

  ghost function EncodeFields(configured: map<Field, nat>, refs: map<nat, nat>, n: nat): (r: Option<seq<FieldMapping>>)
    requires n <= |FIELD_ORDER|
  {
    if n == 0 then Some([])
    else
      var f := FIELD_ORDER[n-1];
      var front := EncodeFields(configured, refs, n - 1);
      if front.None? || f !in configured then front
      else
        var ref := RefOf(refs, configured[f]);
        if ref.None? then None else Some(front.value + [Configure(f, ref.value)])
  }

  /** The configured mapping of a role as output entries; fails on an unknown column. */
  ghost function EncodeRole(configured: Configured, refs: References, role: Role): Option<seq<FieldMapping>> {
    if role !in refs then Some([])
    else if role !in configured then None
    else EncodeFields(configured[role], refs[role], |FIELD_ORDER|)
  }

  ghost function OutputFromConfig(configured: Configured, refs: References, version: nat): Option<Output> {
    var a, t := EncodeRole(configured, refs, Authoritative), EncodeRole(configured, refs, Target);
    if a.None? || t.None? then None else Some(Output(version, a.value, t.value, []))
  }

  // ----- From output to checkpoint -----

  function FieldsOf(mappings: seq<FieldMapping>): (r: seq<Field>)
    ensures |r| == |mappings| && forall i :: 0 <= i < |r| ==> r[i] == mappings[i].field
  {
    seq(|mappings|, i requires 0 <= i < |mappings| => mappings[i].field)
  }

  function RefsOf(mappings: seq<FieldMapping>): (r: seq<nat>)
    ensures |r| == |mappings| && forall i :: 0 <= i < |r| ==> r[i] == mappings[i].ref
  {
    seq(|mappings|, i requires 0 <= i < |mappings| => mappings[i].ref)
  }

  /** Field to column; later entries for the same field replace earlier ones. */
  function Decode(mappings: seq<FieldMapping>, refs: map<nat, nat>): (r: map<Field, nat>)
    requires forall m :: m in mappings ==> m.ref in refs
    ensures r.Keys == ToSet(FieldsOf(mappings))
  {
    if mappings == [] then map[]
    else
      var last := mappings[|mappings|-1];
      assert FieldsOf(mappings) == FieldsOf(mappings[..|mappings|-1]) + [last.field];
      Decode(mappings[..|mappings|-1], refs)[last.field := refs[last.ref]]
  }

  function UnresolvedFields(o: Output, role: Role): set<Field> {
    set u | u in o.unresolved && u.Missing? && u.role == role :: u.field
  }

  predicate HasUnresolved(o: Output, role: Role) {
    exists u :: u in o.unresolved && PrefixOf(u) == Some(role)
  }

  datatype Checkpoint = Checkpoint(resolved: bool, mapping: map<Field, nat>)

  function RoleCheckpoint(o: Output, role: Role, refs: References): Option<Checkpoint> {
    var mappings := MappingsOf(o, role);
    if role !in refs || exists m :: m in mappings && m.ref !in refs[role] then None
    else
      var mapping := Decode(mappings, refs[role]);
      Some(Checkpoint(!HasUnresolved(o, role) && mapping.Keys == FIXED_FIELDS, mapping))
  }

  /** What normalisation demands of the frozen mapping. */
  predicate Recheck(c: Checkpoint) {
    c.resolved && c.mapping.Keys == FIXED_FIELDS && |c.mapping.Values| == |c.mapping|
  }

  // ----- Round trip -----

  ghost predicate Encodes(mappings: seq<FieldMapping>, configured: map<Field, nat>, refs: map<nat, nat>, fields: set<Field>) {
    && (forall m :: m in mappings ==> m == Configure(m.field, m.ref))
    && (forall m :: m in mappings ==> m.ref in refs && m.field in configured && refs[m.ref] == configured[m.field])
    && ToSet(FieldsOf(mappings)) == configured.Keys * fields
    && Distinct(FieldsOf(mappings))
  }

  lemma {:induction false} EncodeFieldsEncodes(configured: map<Field, nat>, refs: map<nat, nat>, n: nat)
    requires n <= |FIELD_ORDER| && EncodeFields(configured, refs, n).Some?
    ensures Encodes(EncodeFields(configured, refs, n).value, configured, refs, ToSet(FIELD_ORDER[..n]))
  {
    hide Encodes;
    if n == 0 {
      NothingEncoded(configured, refs);
    } else {
      EncodeFieldsEncodes(configured, refs, n - 1);
      FieldOrderDistinct(n - 1);
      var f, front := FIELD_ORDER[n-1], EncodeFields(configured, refs, n - 1).value;
      assert FIELD_ORDER[..n] == FIELD_ORDER[..n-1] + [f];
      assert ToSet(FIELD_ORDER[..n]) == ToSet(FIELD_ORDER[..n-1]) + {f};
      if f in configured {
        EncodesMore(front, configured, refs, ToSet(FIELD_ORDER[..n-1]), f, RefOf(refs, configured[f]).value);
      } else {
        SameEncoding(front, configured, refs, ToSet(FIELD_ORDER[..n-1]), f);
      }
    }
  }

  lemma NothingEncoded(configured: map<Field, nat>, refs: map<nat, nat>)
    ensures Encodes([], configured, refs, ToSet(FIELD_ORDER[..0]))
  {
  }

  lemma SameEncoding(front: seq<FieldMapping>, configured: map<Field, nat>, refs: map<nat, nat>, fields: set<Field>, f: Field)
    requires Encodes(front, configured, refs, fields) && f !in configured
    ensures Encodes(front, configured, refs, fields + {f})
  {
    assert configured.Keys * (fields + {f}) == configured.Keys * fields;
  }

  lemma EncodesMore(front: seq<FieldMapping>, configured: map<Field, nat>, refs: map<nat, nat>, fields: set<Field>,
                    f: Field, ref: nat)
    requires Encodes(front, configured, refs, fields) && f in configured && f !in fields
    requires ref in refs && refs[ref] == configured[f]
    ensures Encodes(front + [Configure(f, ref)], configured, refs, fields + {f})
  {
    var all := front + [Configure(f, ref)];
    assert FieldsOf(all) == FieldsOf(front) + [f];
    assert f !in ToSet(FieldsOf(front));
    assert ToSet(FieldsOf(all)) == ToSet(FieldsOf(front)) + {f};
    forall i, j | 0 <= i < j < |all| ensures FieldsOf(all)[i] != FieldsOf(all)[j] {
      assert i < |front| && FieldsOf(front)[i] in ToSet(FieldsOf(front));
    }
  }

  lemma FieldOrderDistinct(n: nat)
    requires n < |FIELD_ORDER|
    ensures FIELD_ORDER[n] !in FIELD_ORDER[..n]
    ensures ToSet(FIELD_ORDER) == FIXED_FIELDS && FIELD_ORDER[..|FIELD_ORDER|] == FIELD_ORDER
  {
  }

  lemma {:induction false} DecodeGives(mappings: seq<FieldMapping>, configured: map<Field, nat>, refs: map<nat, nat>)
    requires forall m :: m in mappings ==> m.ref in refs && m.field in configured && refs[m.ref] == configured[m.field]
    ensures forall f :: f in Decode(mappings, refs) ==> f in configured && Decode(mappings, refs)[f] == configured[f]
  {
    if mappings != [] {
      DecodeGives(mappings[..|mappings|-1], configured, refs);
    }
  }

  /** A configured mapping, encoded as output and decoded into the checkpoint, is unchanged; and
      the checkpoint is resolved exactly when the configuration covers all fixed fields. */
  lemma ConfigRoundTrip(configured: Configured, refs: References, version: nat, role: Role)
    requires OutputFromConfig(configured, refs, version).Some? && role in refs
    ensures role in configured
    ensures var c := RoleCheckpoint(OutputFromConfig(configured, refs, version).value, role, refs);
      c.Some? && c.value.mapping == configured[role] && (c.value.resolved <==> configured[role].Keys == FIXED_FIELDS)
  {
    var mappings := EncodeFields(configured[role], refs[role], |FIELD_ORDER|).value;
    assert MappingsOf(OutputFromConfig(configured, refs, version).value, role) == mappings;
    RoleRoundTrip(configured[role], refs[role]);
    hide EncodeFields, Decode;
  }

  lemma RoleRoundTrip(configured: map<Field, nat>, refs: map<nat, nat>)
    requires EncodeFields(configured, refs, |FIELD_ORDER|).Some?
    ensures var mappings := EncodeFields(configured, refs, |FIELD_ORDER|).value;
      (forall m :: m in mappings ==> m.ref in refs) && Decode(mappings, refs) == configured
  {
    var mappings := EncodeFields(configured, refs, |FIELD_ORDER|).value;
    EncodeFieldsEncodes(configured, refs, |FIELD_ORDER|);
    FieldOrderDistinct(0);
    AllFieldsAreFixed(configured.Keys);
    hide EncodeFields, Decode, Configure, Distinct;
    DecodeGives(mappings, configured, refs);
    SameMap(Decode(mappings, refs), configured);
  }

  lemma SameMap(a: map<Field, nat>, b: map<Field, nat>)
    requires a.Keys == b.Keys && forall f :: f in a ==> a[f] == b[f]
    ensures a == b
  {
  }

  lemma AllFieldsAreFixed(s: set<Field>)
    ensures s * FIXED_FIELDS == s
  {
    forall f | f in s ensures f in FIXED_FIELDS {
      match f
      case Category =>
      case Name =>
      case Number =>
      case ClassName =>
      case Phone =>
      case Email =>
    }
  }

  // ----- Merging a model's answer -----

  datatype Violation =
    | RoleNotRequested(role: Role) | UnresolvedNotRequested | VersionMismatch | UnresolvedUnknown
    | FieldDuplicated(role: Role) | SourceDuplicated(role: Role) | SourceUnknown(role: Role) | Forbidden(role: Role)
    | NormalizerInvalid(role: Role) | EntityKindsInvalid(role: Role) | Conflict(role: Role)
    | CoverageIncomplete(role: Role) | ExplicitMismatch(role: Role)

  /** The model answered only for the roles it was asked about. */
  ghost predicate AnswersOnly(model: Output, llm: set<Role>) {
    && (forall role: Role :: role !in llm ==> MappingsOf(model, role) == [])
    && (forall u :: u in model.unresolved ==> PrefixOf(u).Some? && PrefixOf(u).value in llm)
  }

  /** The roles asked about come from the model, the others from the configuration. */
  ghost predicate Merges(model: Output, configured: Output, llm: set<Role>, merged: Output) {
    && merged.version == model.version && merged.unresolved == model.unresolved
    && (forall role: Role :: role in llm ==> MappingsOf(merged, role) == MappingsOf(model, role))
    && (forall role: Role :: role !in llm ==> MappingsOf(merged, role) == MappingsOf(configured, role))
  }

  method MergeRoles(model: Output, configured: Output, llm: set<Role>) returns (r: Result<Output, Violation>)
    ensures r.Ok? <==> AnswersOnly(model, llm)
    ensures r.Ok? ==> Merges(model, configured, llm, r.value)
  {
    var roles := [Authoritative, Target];
    for i := 0 to |roles|
      invariant forall j :: 0 <= j < i ==> roles[j] in llm || MappingsOf(model, roles[j]) == []
    {
      if roles[i] !in llm && MappingsOf(model, roles[i]) != [] {
        return Err(RoleNotRequested(roles[i]));
      }
    }
    assert roles[0] in llm || MappingsOf(model, roles[0]) == [];
    assert roles[1] in llm || MappingsOf(model, roles[1]) == [];
    if exists u :: u in model.unresolved && !(PrefixOf(u).Some? && PrefixOf(u).value in llm) {
      return Err(UnresolvedNotRequested);
    }
    return Ok(Output(model.version, if Authoritative in llm then model.authoritative else configured.authoritative,
                     if Target in llm then model.target else configured.target, model.unresolved));
  }

  // ----- Validation -----

  predicate EntryValid(m: FieldMapping, refs: map<nat, nat>, forbidden: set<nat>) {
    && m.ref in refs && m.ref !in forbidden
    && m.normalizer == NormalizerFor(m.field) && m.kinds == EntityKindsFor(m.field)
  }

  /** What a role's part of an accepted output satisfies. */
  ghost predicate RoleValid(o: Output, role: Role, refs: map<nat, nat>, forbidden: set<nat>, enforced: Option<map<Field, nat>>) {
    var mappings := MappingsOf(o, role);
    && Distinct(FieldsOf(mappings)) && Distinct(RefsOf(mappings))
    && (forall m :: m in mappings ==> EntryValid(m, refs, forbidden))
    && ToSet(FieldsOf(mappings)) !! UnresolvedFields(o, role)
    && ToSet(FieldsOf(mappings)) + UnresolvedFields(o, role) == FIXED_FIELDS
    && (enforced.Some? ==> Decode(mappings, refs) == enforced.value)
  }

  method CompileEntries(role: Role, mappings: seq<FieldMapping>, refs: map<nat, nat>, forbidden: set<nat>)
      returns (r: Result<map<Field, nat>, Violation>)
    ensures r.Ok? <==> forall m :: m in mappings ==> EntryValid(m, refs, forbidden)
    ensures r.Ok? ==> r.value == Decode(mappings, refs)
    ensures r.Err? ==> !r.error.VersionMismatch?
  {
    var compiled: map<Field, nat> := map[];
    for i := 0 to |mappings|
      invariant forall m :: m in mappings[..i] ==> EntryValid(m, refs, forbidden)
      invariant compiled == Decode(mappings[..i], refs)
    {
      var m := mappings[i];
      assert mappings[..i+1] == mappings[..i] + [m] && mappings[..i+1][..i] == mappings[..i] && m in mappings;
      if m.ref !in refs {
        return Err(SourceUnknown(role));
      }
      if m.ref in forbidden {
        return Err(Forbidden(role));
      }
      if m.normalizer != NormalizerFor(m.field) {
        return Err(NormalizerInvalid(role));
      }
      if m.kinds != EntityKindsFor(m.field) {
        return Err(EntityKindsInvalid(role));
      }
      compiled := compiled[m.field := refs[m.ref]];
    }
    assert mappings[..|mappings|] == mappings;
    return Ok(compiled);
  }

  method ValidateRole(o: Output, role: Role, refs: map<nat, nat>, forbidden: set<nat>, enforced: Option<map<Field, nat>>)
      returns (r: Result<(), Violation>)
    ensures r.Ok? <==> RoleValid(o, role, refs, forbidden, enforced)
    ensures r.Err? ==> !r.error.VersionMismatch?
  {
    hide NormalizerFor, EntityKindsFor;
    var mappings := MappingsOf(o, role);
    CountsDistinct(FieldsOf(mappings));
    CountsDistinct(RefsOf(mappings));
    if |ToSet(FieldsOf(mappings))| != |mappings| {
      return Err(FieldDuplicated(role));
    }
    if |ToSet(RefsOf(mappings))| != |mappings| {
      return Err(SourceDuplicated(role));
    }
    var compiled := CompileEntries(role, mappings, refs, forbidden);
    if compiled.Err? {
      return Err(compiled.error);
    }
    var unresolved := UnresolvedFields(o, role);
    if compiled.value.Keys * unresolved != {} {
      return Err(Conflict(role));
    }
    if compiled.value.Keys + unresolved != FIXED_FIELDS {
      return Err(CoverageIncomplete(role));
    }
    if enforced.Some? && compiled.value != enforced.value {
      return Err(ExplicitMismatch(role));
    }
    return Ok(());
  }

  datatype Rules = Rules(refs: References, configured: Configured, enforced: set<Role>, forbidden: map<Role, set<nat>>, version: nat)

  predicate RulesCover(rules: Rules) {
    rules.refs.Keys <= rules.forbidden.Keys && rules.refs.Keys <= rules.configured.Keys
  }

  function EnforcedFor(rules: Rules, role: Role): Option<map<Field, nat>> {
    if role in rules.enforced && role in rules.configured then Some(rules.configured[role]) else None
  }

  /** When a mapping output is accepted. */
  ghost predicate Accepted(o: Output, rules: Rules)
    requires RulesCover(rules)
  {
    && o.version == rules.version
    && (forall u :: u in o.unresolved ==> u.Missing? && u.role in rules.refs)
    && (forall role: Role :: role !in rules.refs ==> MappingsOf(o, role) == [])
    && (forall role: Role :: role in rules.refs ==>
          RoleValid(o, role, rules.refs[role], rules.forbidden[role], EnforcedFor(rules, role)))
  }

  method ValidateOutput(o: Output, rules: Rules) returns (r: Result<Output, Violation>)
    requires RulesCover(rules)
    ensures r.Ok? <==> Accepted(o, rules)
    ensures r.Ok? ==> r.value == o
    ensures r == Err(VersionMismatch) <==> o.version != rules.version
  {
    if o.version != rules.version {
      return Err(VersionMismatch);
    }
    if exists u :: u in o.unresolved && !(u.Missing? && u.role in rules.refs) {
      return Err(UnresolvedUnknown);
    }
    hide RoleValid, UnresolvedFields, EnforcedFor, MappingsOf;
    var roles := [Authoritative, Target];
    for i := 0 to |roles|
      invariant forall j :: 0 <= j < i && roles[j] !in rules.refs ==> MappingsOf(o, roles[j]) == []
      invariant forall j :: 0 <= j < i && roles[j] in rules.refs ==>
        RoleValid(o, roles[j], rules.refs[roles[j]], rules.forbidden[roles[j]], EnforcedFor(rules, roles[j]))
    {
      var role := roles[i];
      if role !in rules.refs {
        if MappingsOf(o, role) != [] {
          return Err(RoleNotRequested(role));
        }
      } else {
        var v := ValidateRole(o, role, rules.refs[role], rules.forbidden[role], EnforcedFor(rules, role));
        if v.Err? {
          return Err(v.error);
        }
      }
    }
    assert roles[0] == Authoritative && roles[1] == Target;
    return Ok(o);
  }

  // ----- What acceptance means -----

  lemma {:induction false} DecodeInjective(mappings: seq<FieldMapping>, refs: map<nat, nat>, f: Field, g: Field)
    requires forall m :: m in mappings ==> m.ref in refs
    requires OneRefPerColumn(refs) && Distinct(RefsOf(mappings))
    requires f in Decode(mappings, refs) && g in Decode(mappings, refs) && Decode(mappings, refs)[f] == Decode(mappings, refs)[g]
    ensures f == g
  {
    var i := DecodeSource(mappings, refs, f);
    var j := DecodeSource(mappings, refs, g);
    assert mappings[i] in mappings && mappings[j] in mappings;
    assert RefsOf(mappings)[i] == RefsOf(mappings)[j];
  }

  lemma {:induction false} DecodeSource(mappings: seq<FieldMapping>, refs: map<nat, nat>, f: Field) returns (i: nat)
    requires forall m :: m in mappings ==> m.ref in refs
    requires f in Decode(mappings, refs)
    ensures i < |mappings| && mappings[i].field == f && mappings[i].ref in refs
    ensures Decode(mappings, refs)[f] == refs[mappings[i].ref]
  {
    var n := |mappings| - 1;
    if mappings[n].field == f {
      i := n;
      assert mappings[n] in mappings;
    } else {
      i := DecodeSource(mappings[..n], refs, f);
    }
  }

  /** In an accepted output each role's mapped and unresolved fields partition the fixed fields,
      different fields come from different columns, and no key or version column is mapped. */
  lemma {:induction false} AcceptedMappingIsExact(o: Output, rules: Rules, role: Role)
    requires RulesCover(rules) && Accepted(o, rules) && role in rules.refs && OneRefPerColumn(rules.refs[role])
    ensures var c := RoleCheckpoint(o, role, rules.refs);
      && c.Some?
      && c.value.mapping.Keys !! UnresolvedFields(o, role)
      && c.value.mapping.Keys + UnresolvedFields(o, role) == FIXED_FIELDS
      && (forall f, g :: f in c.value.mapping && g in c.value.mapping && f != g ==> c.value.mapping[f] != c.value.mapping[g])
      && (forall f, x :: f in c.value.mapping && x in rules.forbidden[role] && x in rules.refs[role] ==>
            c.value.mapping[f] != rules.refs[role][x])
  {
    var mappings, refs := MappingsOf(o, role), rules.refs[role];
    assert RoleValid(o, role, refs, rules.forbidden[role], EnforcedFor(rules, role));
    forall m | m in mappings ensures m.ref in refs {
      assert EntryValid(m, refs, rules.forbidden[role]);
    }
    var d := Decode(mappings, refs);
    forall f, g | f in d && g in d && f != g ensures d[f] != d[g] {
      if d[f] == d[g] {
        DecodeInjective(mappings, refs, f, g);
      }
    }
    forall f, x | f in d && x in rules.forbidden[role] && x in refs ensures d[f] != refs[x] {
      var i := DecodeSource(mappings, refs, f);
      assert EntryValid(mappings[i], refs, rules.forbidden[role]);
    }
  }

  /** An accepted entry is cleaned in the way its field needs and applies to students only when it
      is the class name; its column is known and not a key or version column. */
  lemma AcceptedEntriesAreTyped(o: Output, rules: Rules, role: Role, m: FieldMapping)
    requires RulesCover(rules) && Accepted(o, rules) && role in rules.refs
    requires m in if role == Authoritative then o.authoritative else o.target
    ensures m.ref in rules.refs[role] && m.ref !in rules.forbidden[role]
    ensures m.kinds == StudentsOnly <==> m.field == ClassName
    ensures m.normalizer == NormalizePhone <==> m.field == Phone
    ensures m.normalizer == NormalizeEmail <==> m.field == Email
    ensures m.normalizer == NormalizeCategory <==> m.field == Category
    ensures m.normalizer == TrimIdentifier <==> m.field == Number
    ensures m.normalizer == TrimText <==> m.field == Name || m.field == ClassName
  {
    assert RoleValid(o, role, rules.refs[role], rules.forbidden[role], EnforcedFor(rules, role));
    assert EntryValid(m, rules.refs[role], rules.forbidden[role]);
  }

  /** Where the configuration is enforced, the checkpoint of an accepted output is the configured mapping. */
  lemma EnforcedMappingIsMet(o: Output, rules: Rules, role: Role)
    requires RulesCover(rules) && Accepted(o, rules) && role in rules.refs && role in rules.enforced
    ensures RoleCheckpoint(o, role, rules.refs).Some?
    ensures RoleCheckpoint(o, role, rules.refs).value.mapping == rules.configured[role]
  {
    var refs := rules.refs[role];
    assert RoleValid(o, role, refs, rules.forbidden[role], EnforcedFor(rules, role));
    forall m | m in MappingsOf(o, role) ensures m.ref in refs {
      assert EntryValid(m, refs, rules.forbidden[role]);
    }
  }

  /** Every role checkpoint of an accepted output that is marked resolved passes the check made
      again before normalisation; and it is resolved exactly when nothing of the role is listed
      as unresolved. */
  lemma {:induction false} ResolvedPassesRecheck(o: Output, rules: Rules, role: Role)
    requires RulesCover(rules) && Accepted(o, rules) && role in rules.refs && OneRefPerColumn(rules.refs[role])
    ensures var c := RoleCheckpoint(o, role, rules.refs);
      c.Some? && (c.value.resolved <==> Recheck(c.value)) && (c.value.resolved <==> UnresolvedFields(o, role) == {})
  {
    AcceptedMappingIsExact(o, rules, role);
    var c := RoleCheckpoint(o, role, rules.refs).value;
    ValuesCount(c.mapping);
    if HasUnresolved(o, role) {
      var u :| u in o.unresolved && PrefixOf(u) == Some(role);
      assert u.field in UnresolvedFields(o, role);
    }
  }

  function Image(m: map<Field, nat>, s: set<Field>): set<nat>
    requires s <= m.Keys
  {
    set f | f in s :: m[f]
  }

  lemma {:induction false} ImageSize(m: map<Field, nat>, s: set<Field>)
    requires s <= m.Keys && forall f, g :: f in s && g in s && f != g ==> m[f] != m[g]
    ensures |Image(m, s)| == |s|
    decreases |s|
  {
    if s != {} {
      var f :| f in s;
      ImageSize(m, s - {f});
      assert Image(m, s) == Image(m, s - {f}) + {m[f]};
      assert m[f] !in Image(m, s - {f});
    }
  }

  lemma ValuesCount(m: map<Field, nat>)
    requires forall f, g :: f in m && g in m && f != g ==> m[f] != m[g]
    ensures |m.Values| == |m|
  {
    ImageSize(m, m.Keys);
    assert m.Values == Image(m, m.Keys);
  }

  /** After the merge and the validation, the roles the model was not asked about hold exactly the
      configured mapping, whatever the model answered. */
  lemma ConfiguredRolesAreKept(rules: Rules, model: Output, merged: Output, llm: set<Role>, role: Role)
    requires RulesCover(rules) && role in rules.refs && role !in llm
    requires OutputFromConfig(rules.configured, rules.refs, rules.version).Some?
    requires AnswersOnly(model, llm)
    requires Merges(model, OutputFromConfig(rules.configured, rules.refs, rules.version).value, llm, merged)
    ensures var c := RoleCheckpoint(merged, role, rules.refs);
      c.Some? && c.value.mapping == rules.configured[role] &&
      (c.value.resolved <==> rules.configured[role].Keys == FIXED_FIELDS)
  {
    ConfigRoundTrip(rules.configured, rules.refs, rules.version, role);
    assert !HasUnresolved(merged, role);
  }
}
