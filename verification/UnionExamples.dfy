/**
 * Canonicalisation of union examples
 * (codegen/agent/specs_builder_misc.go:787-1020). Authored and generated examples
 * flatten a union to the value of one branch; decoders expect a tagged envelope
 * at every union node. Types may be recursive through user types.
 */
module UnionExamples {
  import opened Basics

  datatype Json =
    | Null
    | Text(text: string)
    | Scalar(token: string)
    | Arr(items: seq<Json>)
    | Obj(members: map<string, Json>)

  /** Missing stands for an absent attribute, Plain for primitive, Any and empty types. */
  datatype Ty =
    | Missing
    | Plain(kind: string)
    | User(name: string)
    | Object(fields: seq<Field>)
    | Array(elem: Ty)
    | Map(elem: Ty)
    | Union(variants: seq<Variant>, typeKey: string, valueKey: string)

  /** A field has its design name and possibly another, model-facing name. */
  datatype Field = Field(name: string, transport: Option<string>, attr: Ty)

  datatype Variant = Variant(name: string, attr: Ty)

  /**
   * The user types of a design, and the library's test whether a value fits a
   * type. `rank` witnesses that no user type unfolds to itself without passing
   * through an object, array or map, where the rewriting would not return.
   */
  datatype Design = Design(types: map<string, Ty>, rank: map<string, nat>, compatible: (Ty, Json) -> bool)

  function Level(d: Design, t: Ty): nat {
    match t
    case User(n) => if n in d.rank then d.rank[n] + 1 else 0
    case Union(vs, _, _) => LevelOf(d, vs)
    case _ => 0
  }

  function LevelOf(d: Design, vs: seq<Variant>): nat {
    if vs == [] then 0 else Max(Level(d, vs[0].attr), LevelOf(d, vs[1..]))
  }

  lemma {:induction false} LevelOfVariant(d: Design, vs: seq<Variant>, i: nat)
    requires i < |vs|
    ensures Level(d, vs[i].attr) <= LevelOf(d, vs)
  {
    if i > 0 {
      LevelOfVariant(d, vs[1..], i - 1);
    }
  }

  predicate Grounded(d: Design) {
    forall n :: n in d.types ==> n in d.rank && Level(d, d.types[n]) <= d.rank[n]
  }

  // ---------------------------------------------------------------------
  // Choosing a variant
  // ---------------------------------------------------------------------

  function TypeKey(t: Ty): string
    requires t.Union?
  {
    if t.typeKey == "" then "type" else t.typeKey
  }

  function ValueKey(t: Ty): string
    requires t.Union?
  {
    if t.valueKey == "" then "value" else t.valueKey
  }

  function FieldNamed(fields: seq<Field>, key: string): Option<Ty> {
    if fields == [] then None
    else if fields[0].name == key then Some(fields[0].attr)
    else FieldNamed(fields[1..], key)
  }

  function FieldTransported(fields: seq<Field>, key: string): Option<Ty> {
    if fields == [] then None
    else if fields[0].transport == Some(key) then Some(fields[0].attr)
    else FieldTransported(fields[1..], key)
  }

  /** The design name wins over the model-facing name; an unknown key has no attribute. */
  function ChildOf(fields: seq<Field>, key: string): Ty {
    match FieldNamed(fields, key)
    case Some(t) => t
    case None =>
      match FieldTransported(fields, key)
      case Some(t) => t
      case None => Missing
  }

  /** This field is the first of its design name. */
  predicate FirstNamed(fields: seq<Field>, i: nat) {
    i < |fields| && forall j :: 0 <= j < i ==> fields[j].name != fields[i].name
  }

  predicate FirstTransported(fields: seq<Field>, i: nat) {
    i < |fields| && fields[i].transport.Some? && forall j :: 0 <= j < i ==> fields[j].transport != fields[i].transport
  }

  lemma {:induction false} FirstNamedIsFound(fields: seq<Field>, i: nat)
    requires FirstNamed(fields, i)
    ensures FieldNamed(fields, fields[i].name) == Some(fields[i].attr)
  {
    if i > 0 {
      FirstNamedIsFound(fields[1..], i - 1);
    }
  }

  lemma {:induction false} FirstTransportedIsFound(fields: seq<Field>, i: nat)
    requires FirstTransported(fields, i)
    ensures FieldTransported(fields, fields[i].transport.value) == Some(fields[i].attr)
  {
    if i > 0 {
      FirstTransportedIsFound(fields[1..], i - 1);
    }
  }

  lemma {:induction false} UnknownNamesAreNotFound(fields: seq<Field>, key: string)
    ensures (forall i :: 0 <= i < |fields| ==> fields[i].name != key) ==> FieldNamed(fields, key).None?
    ensures (forall i :: 0 <= i < |fields| ==> fields[i].transport != Some(key)) ==> FieldTransported(fields, key).None?
  {
    if fields != [] {
      UnknownNamesAreNotFound(fields[1..], key);
    }
  }

  /** A key is a field's design name or, if it is nobody's, a field's model-facing name; of several fields it is the first's. */
  lemma ChildIsFirstField(fields: seq<Field>, key: string, i: nat)
    requires i < |fields|
    requires || (fields[i].name == key && FirstNamed(fields, i))
             || (fields[i].transport == Some(key) && FirstTransported(fields, i) &&
                 forall j :: 0 <= j < |fields| ==> fields[j].name != key)
    ensures ChildOf(fields, key) == fields[i].attr
  {
    if fields[i].name == key {
      FirstNamedIsFound(fields, i);
    } else {
      FirstTransportedIsFound(fields, i);
      UnknownNamesAreNotFound(fields, key);
    }
  }

  /** The first variant of this name. */
  function Find(vs: seq<Variant>, name: string): (r: Option<nat>)
    ensures r.Some? ==> r.value < |vs| && vs[r.value].name == name
    ensures r.Some? ==> forall i :: 0 <= i < r.value ==> vs[i].name != name
    ensures r.None? ==> forall i :: 0 <= i < |vs| ==> vs[i].name != name
  {
    if vs == [] then None
    else if vs[0].name == name then Some(0)
    else match Find(vs[1..], name)
         case None => assert forall i :: 1 <= i < |vs| ==> vs[i] == vs[1..][i - 1]; None
         case Some(i) => assert forall j :: 1 <= j < |vs| ==> vs[j] == vs[1..][j - 1]; Some(i + 1)
  }

  /** What a type stands for once user types are looked up. */
  function Unwrap(d: Design, t: Ty): (u: Ty)
    requires Grounded(d)
    ensures !(u.User? && u.name in d.types)
    ensures !(t.User? && t.name in d.types) ==> u == t
    decreases Level(d, t)
  {
    if t.User? && t.name in d.types then Unwrap(d, d.types[t.name]) else t
  }

  /** The value is an object all of whose keys are design names of the variant. */
  predicate MatchesKeys(d: Design, t: Ty, v: Json)
    requires Grounded(d)
  {
    var u := Unwrap(d, t);
    v.Obj? && u.Object? && forall k :: k in v.members ==> exists i :: 0 <= i < |u.fields| && u.fields[i].name == k
  }

  /** The library finds the value compatible with the variant. */
  predicate Fits(d: Design, t: Ty, v: Json)
    requires Grounded(d)
  {
    !Unwrap(d, t).Missing? && d.compatible(Unwrap(d, t), v)
  }

  /** The first variant whose keys match. */
  function PickByKeys(d: Design, vs: seq<Variant>, v: Json): (r: Option<nat>)
    requires Grounded(d)
    ensures r.Some? ==> r.value < |vs| && MatchesKeys(d, vs[r.value].attr, v)
    ensures r.Some? ==> forall i :: 0 <= i < r.value ==> !MatchesKeys(d, vs[i].attr, v)
    ensures r.None? ==> forall i :: 0 <= i < |vs| ==> !MatchesKeys(d, vs[i].attr, v)
  {
    if vs == [] then None
    else if MatchesKeys(d, vs[0].attr, v) then Some(0)
    else
      assert forall j :: 1 <= j < |vs| ==> vs[j] == vs[1..][j - 1];
      match PickByKeys(d, vs[1..], v)
      case None => None
      case Some(i) => Some(i + 1)
  }

  /** The first variant the value fits. */
  function PickByType(d: Design, vs: seq<Variant>, v: Json): (r: Option<nat>)
    requires Grounded(d)
    ensures r.Some? ==> r.value < |vs| && Fits(d, vs[r.value].attr, v)
    ensures r.Some? ==> forall i :: 0 <= i < r.value ==> !Fits(d, vs[i].attr, v)
    ensures r.None? ==> forall i :: 0 <= i < |vs| ==> !Fits(d, vs[i].attr, v)
  {
    if vs == [] then None
    else if Fits(d, vs[0].attr, v) then Some(0)
    else
      assert forall j :: 1 <= j < |vs| ==> vs[j] == vs[1..][j - 1];
      match PickByType(d, vs[1..], v)
      case None => None
      case Some(i) => Some(i + 1)
  }

  /** The variant a flattened value belongs to: the first with its keys or, if no variant has them, the first it fits. */
  predicate FirstChoice(d: Design, vs: seq<Variant>, v: Json, i: nat)
    requires Grounded(d)
  {
    && i < |vs|
    && if exists j :: 0 <= j < |vs| && MatchesKeys(d, vs[j].attr, v)
       then MatchesKeys(d, vs[i].attr, v) && forall j :: 0 <= j < i ==> !MatchesKeys(d, vs[j].attr, v)
       else Fits(d, vs[i].attr, v) && forall j :: 0 <= j < i ==> !Fits(d, vs[j].attr, v)
  }

  /** Object keys decide first, then the library's compatibility test. */
  function Pick(d: Design, vs: seq<Variant>, v: Json): (r: Option<nat>)
    requires Grounded(d)
    ensures r.Some? ==> FirstChoice(d, vs, v, r.value)
    ensures r.None? ==> forall i :: 0 <= i < |vs| ==> !MatchesKeys(d, vs[i].attr, v) && !Fits(d, vs[i].attr, v)
  {
    if v.Obj? && PickByKeys(d, vs, v).Some? then PickByKeys(d, vs, v) else PickByType(d, vs, v)
  }

  // ---------------------------------------------------------------------
  // The rewriting
  // ---------------------------------------------------------------------

  function Envelope(t: Ty, name: string, value: Json): Json
    requires t.Union?
  {
    Obj(map[TypeKey(t) := Text(name), ValueKey(t) := value])
  }

  /** The variant an already tagged value names. */
  function Tag(t: Ty, v: Json): (r: Option<nat>)
    requires t.Union?
    ensures r.Some? ==> r.value < |t.variants|
  {
    if v.Obj? && TypeKey(t) in v.members && v.members[TypeKey(t)].Text? && v.members[TypeKey(t)].text != ""
    then Find(t.variants, v.members[TypeKey(t)].text)
    else None
  }

  /**
   * The rewritten value, or None where the code gives up: it panics when strict
   * and reports no example otherwise.
   */
  function Canon(d: Design, strict: bool, t: Ty, v: Json): Option<Json>
    requires Grounded(d)
    decreases v, Level(d, t), t
  {
    match t
    case User(n) => if n in d.types then Canon(d, strict, d.types[n], v) else Some(v)
    case Object(fields) =>
      if !v.Obj? then Some(v)
      else if exists k :: k in v.members && Canon(d, strict, ChildOf(fields, k), v.members[k]).None? then None
      else Some(Obj(map k | k in v.members :: Canon(d, strict, ChildOf(fields, k), v.members[k]).value))
    case Array(elem) =>
      if !v.Arr? then Some(v)
      else if exists i :: 0 <= i < |v.items| && Canon(d, strict, elem, v.items[i]).None? then None
      else Some(Arr(seq(|v.items|, i requires 0 <= i < |v.items| => Canon(d, strict, elem, v.items[i]).value)))
    case Map(elem) =>
      if !v.Obj? then Some(v)
      else if exists k :: k in v.members && Canon(d, strict, elem, v.members[k]).None? then None
      else Some(Obj(map k | k in v.members :: Canon(d, strict, elem, v.members[k]).value))
    case Union(vs, _, _) =>
      if v.Null? || vs == [] then Some(v)
      else
        var tagged := if Tag(t, v).Some? && ValueKey(t) in v.members
                      then Canon(d, strict, vs[Tag(t, v).value].attr, v.members[ValueKey(t)]) else None;
        if tagged.Some? then Some(Envelope(t, vs[Tag(t, v).value].name, tagged.value))
        else if strict && Tag(t, v).Some? then None
        else
          (match Pick(d, vs, v)
           case None => None
           case Some(i) =>
             LevelOfVariant(d, vs, i);
             match Canon(d, strict, vs[i].attr, v)
             case None => None
             case Some(value) => Some(Envelope(t, vs[i].name, value)))
    case _ => Some(v)
  }

  // ---------------------------------------------------------------------
  // What canonical means
  // ---------------------------------------------------------------------

  /** Distinct, nonempty variant names and distinct envelope keys, at every union of the type. */
  predicate WellFormed(t: Ty) {
    match t
    case Object(fields) => forall i :: 0 <= i < |fields| ==> WellFormed(fields[i].attr)
    case Array(elem) => WellFormed(elem)
    case Map(elem) => WellFormed(elem)
    case Union(vs, _, _) =>
      && TypeKey(t) != ValueKey(t)
      && (forall i :: 0 <= i < |vs| ==> vs[i].name != "" && WellFormed(vs[i].attr))
      && (forall i, j :: 0 <= i < j < |vs| ==> vs[i].name != vs[j].name)
    case _ => true
  }

  predicate Sound(d: Design) {
    Grounded(d) && forall n :: n in d.types ==> WellFormed(d.types[n])
  }

  /** Every union node below holds nothing or a tagged envelope, at every depth. */
  predicate Canonical(d: Design, t: Ty, v: Json)
    requires Grounded(d)
    decreases v, Level(d, t), t
  {
    match t
    case User(n) => n in d.types ==> Canonical(d, d.types[n], v)
    case Object(fields) => v.Obj? ==> forall k :: k in v.members ==> Canonical(d, ChildOf(fields, k), v.members[k])
    case Array(elem) => v.Arr? ==> forall i :: 0 <= i < |v.items| ==> Canonical(d, elem, v.items[i])
    case Map(elem) => v.Obj? ==> forall k :: k in v.members ==> Canonical(d, elem, v.members[k])
    case Union(vs, _, _) =>
      || v.Null? || vs == []
      || (&& v.Obj? && v.members.Keys == {TypeKey(t), ValueKey(t)}
          && exists i :: 0 <= i < |vs| &&
               v.members[TypeKey(t)] == Text(vs[i].name) && Canonical(d, vs[i].attr, v.members[ValueKey(t)]))
    case _ => true
  }

  lemma {:induction false} ChildIsWellFormed(fields: seq<Field>, key: string)
    requires forall i :: 0 <= i < |fields| ==> WellFormed(fields[i].attr)
    ensures WellFormed(ChildOf(fields, key))
    ensures FieldNamed(fields, key).Some? ==> WellFormed(FieldNamed(fields, key).value)
    ensures FieldTransported(fields, key).Some? ==> WellFormed(FieldTransported(fields, key).value)
  {
    if fields != [] {
      ChildIsWellFormed(fields[1..], key);
    }
  }

  /** Whatever the rewriting returns is canonical. */
  lemma {:induction false} CanonIsCanonical(d: Design, strict: bool, t: Ty, v: Json)
    requires Sound(d) && WellFormed(t) && Canon(d, strict, t, v).Some?
    ensures Canonical(d, t, Canon(d, strict, t, v).value)
    decreases v, Level(d, t), t
  {
    var r := Canon(d, strict, t, v).value;
    match t {
      case User(n) =>
        if n in d.types {
          CanonIsCanonical(d, strict, d.types[n], v);
        }
      case Object(fields) =>
        if v.Obj? {
          forall k | k in v.members ensures Canonical(d, ChildOf(fields, k), r.members[k]) {
            ChildIsWellFormed(fields, k);
            CanonIsCanonical(d, strict, ChildOf(fields, k), v.members[k]);
          }
        }
      case Array(elem) =>
        if v.Arr? {
          forall i | 0 <= i < |v.items| ensures Canonical(d, elem, r.items[i]) {
            CanonIsCanonical(d, strict, elem, v.items[i]);
          }
        }
      case Map(elem) =>
        if v.Obj? {
          forall k | k in v.members ensures Canonical(d, elem, r.members[k]) {
            CanonIsCanonical(d, strict, elem, v.members[k]);
          }
        }
      case Union(vs, _, _) =>
        if !v.Null? && vs != [] {
          var i, inner := Chosen(d, strict, t, v);
          LevelOfVariant(d, vs, i);
          CanonIsCanonical(d, strict, vs[i].attr, inner);
        }
      case _ =>
    }
  }

  /** A rewritten union node is the envelope of one variant around a rewritten value. */
  lemma Chosen(d: Design, strict: bool, t: Ty, v: Json) returns (i: nat, inner: Json)
    requires Grounded(d) && t.Union? && !v.Null? && t.variants != [] && Canon(d, strict, t, v).Some?
    ensures i < |t.variants| && (inner == v || inner < v)
    ensures inner == v || (Tag(t, v) == Some(i) && ValueKey(t) in v.members && inner == v.members[ValueKey(t)])
    ensures Canon(d, strict, t.variants[i].attr, inner).Some?
    ensures Canon(d, strict, t, v).value ==
            Envelope(t, t.variants[i].name, Canon(d, strict, t.variants[i].attr, inner).value)
  {
    if Tag(t, v).Some? && ValueKey(t) in v.members &&
       Canon(d, strict, t.variants[Tag(t, v).value].attr, v.members[ValueKey(t)]).Some? {
      i, inner := Tag(t, v).value, v.members[ValueKey(t)];
    } else {
      i, inner := Pick(d, t.variants, v).value, v;
    }
  }

  /** An envelope around a fixed value is fixed: distinct names make its tag find the same variant. */
  lemma EnvelopeIsFixed(d: Design, strict: bool, t: Ty, v: Json, i: nat)
    requires Grounded(d) && t.Union? && WellFormed(t) && i < |t.variants|
    requires v.Obj? && v.members.Keys == {TypeKey(t), ValueKey(t)} && v.members[TypeKey(t)] == Text(t.variants[i].name)
    requires Canon(d, strict, t.variants[i].attr, v.members[ValueKey(t)]) == Some(v.members[ValueKey(t)])
    ensures Canon(d, strict, t, v) == Some(v)
  {
    assert Tag(t, v) == Some(i);
    assert v == Envelope(t, t.variants[i].name, v.members[ValueKey(t)]);
  }

  /** A canonical value is left exactly as it is, in either mode. */
  lemma {:induction false} CanonicalIsFixed(d: Design, strict: bool, t: Ty, v: Json)
    requires Sound(d) && WellFormed(t) && Canonical(d, t, v)
    ensures Canon(d, strict, t, v) == Some(v)
    decreases v, Level(d, t), t
  {
    match t {
      case User(n) =>
        if n in d.types {
          CanonicalIsFixed(d, strict, d.types[n], v);
        }
      case Object(fields) =>
        if v.Obj? {
          forall k | k in v.members ensures Canon(d, strict, ChildOf(fields, k), v.members[k]) == Some(v.members[k]) {
            ChildIsWellFormed(fields, k);
            CanonicalIsFixed(d, strict, ChildOf(fields, k), v.members[k]);
          }
          assert Canon(d, strict, t, v).value.members == v.members;
        }
      case Array(elem) =>
        if v.Arr? {
          forall i | 0 <= i < |v.items| ensures Canon(d, strict, elem, v.items[i]) == Some(v.items[i]) {
            CanonicalIsFixed(d, strict, elem, v.items[i]);
          }
          assert Canon(d, strict, t, v).value.items == v.items;
        }
      case Map(elem) =>
        if v.Obj? {
          forall k | k in v.members ensures Canon(d, strict, elem, v.members[k]) == Some(v.members[k]) {
            CanonicalIsFixed(d, strict, elem, v.members[k]);
          }
          assert Canon(d, strict, t, v).value.members == v.members;
        }
      case Union(vs, _, _) =>
        if !v.Null? && vs != [] {
          var i :| 0 <= i < |vs| &&
            v.members[TypeKey(t)] == Text(vs[i].name) && Canonical(d, vs[i].attr, v.members[ValueKey(t)]);
          CanonicalIsFixed(d, strict, vs[i].attr, v.members[ValueKey(t)]);
          EnvelopeIsFixed(d, strict, t, v, i);
        }
      case _ =>
    }
  }

  /** The canonical values are exactly the ones the rewriting does not change. */
  lemma CanonicalExactlyFixed(d: Design, strict: bool, t: Ty, v: Json)
    requires Sound(d) && WellFormed(t)
    ensures Canonical(d, t, v) <==> Canon(d, strict, t, v) == Some(v)
  {
    if Canonical(d, t, v) {
      CanonicalIsFixed(d, strict, t, v);
    }
    if Canon(d, strict, t, v) == Some(v) {
      CanonIsCanonical(d, strict, t, v);
    }
  }

  /** Rewriting twice, in whichever modes, is rewriting once. */
  lemma CanonIsIdempotent(d: Design, first: bool, second: bool, t: Ty, v: Json)
    requires Sound(d) && WellFormed(t) && Canon(d, first, t, v).Some?
    ensures Canon(d, second, t, Canon(d, first, t, v).value) == Canon(d, first, t, v)
  {
    CanonIsCanonical(d, first, t, v);
    CanonicalIsFixed(d, second, t, Canon(d, first, t, v).value);
  }

  // ---------------------------------------------------------------------
  // Nothing but envelopes is added
  // ---------------------------------------------------------------------

  /**
   * `r` is `v` with envelopes: the two agree everywhere except that a union node
   * of `r` is tagged with a variant, around what `v` holds there, flattened or
   * already tagged with that variant.
   */
  predicate Wraps(d: Design, t: Ty, v: Json, r: Json)
    requires Grounded(d)
    decreases v, Level(d, t), t
  {
    match t
    case User(n) => if n in d.types then Wraps(d, d.types[n], v, r) else r == v
    case Object(fields) =>
      if !v.Obj? then r == v
      else r.Obj? && r.members.Keys == v.members.Keys &&
           forall k :: k in v.members ==> Wraps(d, ChildOf(fields, k), v.members[k], r.members[k])
    case Array(elem) =>
      if !v.Arr? then r == v
      else r.Arr? && |r.items| == |v.items| &&
           forall i :: 0 <= i < |v.items| ==> Wraps(d, elem, v.items[i], r.items[i])
    case Map(elem) =>
      if !v.Obj? then r == v
      else r.Obj? && r.members.Keys == v.members.Keys &&
           forall k :: k in v.members ==> Wraps(d, elem, v.members[k], r.members[k])
    case Union(vs, _, _) =>
      if v.Null? || vs == [] then r == v
      else r.Obj? && r.members.Keys == {TypeKey(t), ValueKey(t)} &&
           exists i: nat :: i < |vs| && r.members[TypeKey(t)] == Text(vs[i].name) &&
             (LevelOfVariant(d, vs, i);
              || Wraps(d, vs[i].attr, v, r.members[ValueKey(t)])
              || (Tag(t, v) == Some(i) && ValueKey(t) in v.members &&
                  Wraps(d, vs[i].attr, v.members[ValueKey(t)], r.members[ValueKey(t)])))
    case _ => r == v
  }

  /** Meaning is preserved: the rewriting adds envelopes at union nodes and changes nothing else. */
  lemma {:induction false} CanonOnlyWraps(d: Design, strict: bool, t: Ty, v: Json)
    requires Sound(d) && WellFormed(t) && Canon(d, strict, t, v).Some?
    ensures Wraps(d, t, v, Canon(d, strict, t, v).value)
    decreases v, Level(d, t), t
  {
    var r := Canon(d, strict, t, v).value;
    match t {
      case User(n) =>
        if n in d.types {
          CanonOnlyWraps(d, strict, d.types[n], v);
        }
      case Object(fields) =>
        if v.Obj? {
          forall k | k in v.members ensures Wraps(d, ChildOf(fields, k), v.members[k], r.members[k]) {
            ChildIsWellFormed(fields, k);
            CanonOnlyWraps(d, strict, ChildOf(fields, k), v.members[k]);
          }
        }
      case Array(elem) =>
        if v.Arr? {
          forall i | 0 <= i < |v.items| ensures Wraps(d, elem, v.items[i], r.items[i]) {
            CanonOnlyWraps(d, strict, elem, v.items[i]);
          }
        }
      case Map(elem) =>
        if v.Obj? {
          forall k | k in v.members ensures Wraps(d, elem, v.members[k], r.members[k]) {
            CanonOnlyWraps(d, strict, elem, v.members[k]);
          }
        }
      case Union(vs, _, _) =>
        if !v.Null? && vs != [] {
          var i, inner := Chosen(d, strict, t, v);
          LevelOfVariant(d, vs, i);
          CanonOnlyWraps(d, strict, vs[i].attr, inner);
          assert r.members[TypeKey(t)] == Text(vs[i].name);
        }
      case _ =>
    }
  }

  /** Strict mode only refuses more: where it answers, the lenient mode gives the same answer. */
  lemma {:induction false} StrictAnswersAgree(d: Design, t: Ty, v: Json)
    requires Grounded(d) && Canon(d, true, t, v).Some?
    ensures Canon(d, false, t, v) == Canon(d, true, t, v)
    decreases v, Level(d, t), t
  {
    match t {
      case User(n) =>
        if n in d.types {
          StrictAnswersAgree(d, d.types[n], v);
        }
      case Object(fields) =>
        if v.Obj? {
          forall k | k in v.members
            ensures Canon(d, false, ChildOf(fields, k), v.members[k]) == Canon(d, true, ChildOf(fields, k), v.members[k])
          {
            StrictAnswersAgree(d, ChildOf(fields, k), v.members[k]);
          }
          assert Canon(d, false, t, v).value.members == Canon(d, true, t, v).value.members;
        }
      case Array(elem) =>
        if v.Arr? {
          forall i | 0 <= i < |v.items| ensures Canon(d, false, elem, v.items[i]) == Canon(d, true, elem, v.items[i]) {
            StrictAnswersAgree(d, elem, v.items[i]);
          }
          assert Canon(d, false, t, v).value.items == Canon(d, true, t, v).value.items;
        }
      case Map(elem) =>
        if v.Obj? {
          forall k | k in v.members ensures Canon(d, false, elem, v.members[k]) == Canon(d, true, elem, v.members[k]) {
            StrictAnswersAgree(d, elem, v.members[k]);
          }
          assert Canon(d, false, t, v).value.members == Canon(d, true, t, v).value.members;
        }
      case Union(vs, _, _) =>
        if !v.Null? && vs != [] {
          if Tag(t, v).Some? {
            StrictAnswersAgree(d, vs[Tag(t, v).value].attr, v.members[ValueKey(t)]);
          } else {
            var i := Pick(d, vs, v).value;
            LevelOfVariant(d, vs, i);
            StrictAnswersAgree(d, vs[i].attr, v);
          }
        }
      case _ =>
    }
  }

  // ---------------------------------------------------------------------
  // Which variant, and when there is an answer
  // ---------------------------------------------------------------------

  /** The value carries the tag of variant i, the first of its name. */
  predicate TaggedAs(t: Ty, v: Json, i: nat)
    requires t.Union?
  {
    && i < |t.variants| && t.variants[i].name != ""
    && v.Obj? && TypeKey(t) in v.members && v.members[TypeKey(t)] == Text(t.variants[i].name)
    && forall j :: 0 <= j < i ==> t.variants[j].name != t.variants[i].name
  }

  ghost predicate Untagged(t: Ty, v: Json)
    requires t.Union?
  {
    forall i: nat :: !TaggedAs(t, v, i)
  }

  /** The value is not read as tagged: it has no tag or, in lenient mode only, nothing to rewrite under its tag. */
  ghost predicate ReadAsFlat(d: Design, strict: bool, t: Ty, v: Json)
    requires Grounded(d) && t.Union?
  {
    forall i: nat :: TaggedAs(t, v, i) ==>
      !strict && (ValueKey(t) in v.members ==> Canon(d, strict, t.variants[i].attr, v.members[ValueKey(t)]).None?)
  }

  lemma TagIsTheOnlyReading(t: Ty, v: Json)
    requires t.Union?
    ensures match Tag(t, v)
            case None => Untagged(t, v)
            case Some(i) => TaggedAs(t, v, i) && forall j: nat :: TaggedAs(t, v, j) ==> j == i
  {
  }

  lemma ChoiceIsUnique(d: Design, vs: seq<Variant>, v: Json, i: nat, j: nat)
    requires Grounded(d) && FirstChoice(d, vs, v, i) && FirstChoice(d, vs, v, j)
    ensures i == j
  {
    if exists k :: 0 <= k < |vs| && MatchesKeys(d, vs[k].attr, v) {
      assert MatchesKeys(d, vs[i].attr, v) && MatchesKeys(d, vs[j].attr, v);
    } else {
      assert Fits(d, vs[i].attr, v) && Fits(d, vs[j].attr, v);
    }
  }

  lemma PickIsFirstChoice(d: Design, vs: seq<Variant>, v: Json, i: nat)
    requires Grounded(d) && FirstChoice(d, vs, v, i)
    ensures Pick(d, vs, v) == Some(i)
  {
    if Pick(d, vs, v).Some? {
      ChoiceIsUnique(d, vs, v, i, Pick(d, vs, v).value);
    }
  }

  lemma FlatGoesToPick(d: Design, strict: bool, t: Ty, v: Json, i: nat)
    requires Grounded(d) && t.Union? && !v.Null? && ReadAsFlat(d, strict, t, v)
    requires i < |t.variants| && Pick(d, t.variants, v) == Some(i)
    ensures var x := Canon(d, strict, t.variants[i].attr, v);
            Canon(d, strict, t, v) == if x.Some? then Some(Envelope(t, t.variants[i].name, x.value)) else None
  {
    TagIsTheOnlyReading(t, v);
  }

  /** A flattened value is tagged with its first choice around what that variant makes of it; without one there is no answer. */
  lemma FlattenedTakesFirstChoice(d: Design, strict: bool, t: Ty, v: Json, i: nat)
    requires Grounded(d) && t.Union? && !v.Null? && ReadAsFlat(d, strict, t, v) && FirstChoice(d, t.variants, v, i)
    ensures var x := Canon(d, strict, t.variants[i].attr, v);
            Canon(d, strict, t, v) ==
            if x.Some? then Some(Obj(map[TypeKey(t) := Text(t.variants[i].name), ValueKey(t) := x.value])) else None
  {
    PickIsFirstChoice(d, t.variants, v, i);
    FlatGoesToPick(d, strict, t, v, i);
  }

  lemma UnmatchedHasNoAnswer(d: Design, strict: bool, t: Ty, v: Json)
    requires Grounded(d) && t.Union? && t.variants != [] && !v.Null? && ReadAsFlat(d, strict, t, v)
    requires forall i :: 0 <= i < |t.variants| ==> !MatchesKeys(d, t.variants[i].attr, v) && !Fits(d, t.variants[i].attr, v)
    ensures Canon(d, strict, t, v).None?
  {
    TagIsTheOnlyReading(t, v);
  }

  /** A tagged value keeps its variant; in strict mode nothing else is tried. */
  lemma TaggedKeepsItsVariant(d: Design, strict: bool, t: Ty, v: Json, i: nat)
    requires Grounded(d) && t.Union? && TaggedAs(t, v, i)
    ensures var inner := if ValueKey(t) in v.members
                         then Canon(d, strict, t.variants[i].attr, v.members[ValueKey(t)]) else None;
            if inner.Some?
            then Canon(d, strict, t, v) ==
                 Some(Obj(map[TypeKey(t) := Text(t.variants[i].name), ValueKey(t) := inner.value]))
            else strict ==> Canon(d, strict, t, v).None?
  {
    TagIsTheOnlyReading(t, v);
  }

  /** An envelope as the rewriting writes it. */
  predicate Enveloped(t: Ty, r: Json)
    requires t.Union?
  {
    && r.Obj? && r.members.Keys == {TypeKey(t), ValueKey(t)}
    && r.members[TypeKey(t)].Text? && Find(t.variants, r.members[TypeKey(t)].text).Some?
  }

  /** The variant of an envelope. */
  function VariantOf(t: Ty, r: Json): (i: nat)
    requires t.Union? && Enveloped(t, r)
    ensures i < |t.variants| && t.variants[i].name == r.members[TypeKey(t)].text
  {
    Find(t.variants, r.members[TypeKey(t)].text).value
  }

  /** What the example generator shows for a value: every union node flattened to the value of its branch. */
  function Flat(d: Design, t: Ty, r: Json): Json
    requires Grounded(d)
    decreases r, Level(d, t), t
  {
    match t
    case User(n) => if n in d.types then Flat(d, d.types[n], r) else r
    case Object(fields) =>
      if r.Obj? then Obj(map k | k in r.members :: Flat(d, ChildOf(fields, k), r.members[k])) else r
    case Array(elem) =>
      if r.Arr? then Arr(seq(|r.items|, i requires 0 <= i < |r.items| => Flat(d, elem, r.items[i]))) else r
    case Map(elem) =>
      if r.Obj? then Obj(map k | k in r.members :: Flat(d, elem, r.members[k])) else r
    case Union(vs, _, _) =>
      if vs != [] && Enveloped(t, r) then Flat(d, vs[VariantOf(t, r)].attr, r.members[ValueKey(t)]) else r
    case _ => r
  }

  /** At every envelope below, the flattened branch value satisfies `p` of the union, the variant and itself. */
  ghost predicate AtUnions(d: Design, t: Ty, r: Json, p: (Ty, nat, Json) -> bool)
    requires Grounded(d)
    decreases r, Level(d, t), t
  {
    match t
    case User(n) => n in d.types ==> AtUnions(d, d.types[n], r, p)
    case Object(fields) => r.Obj? ==> forall k :: k in r.members ==> AtUnions(d, ChildOf(fields, k), r.members[k], p)
    case Array(elem) => r.Arr? ==> forall i :: 0 <= i < |r.items| ==> AtUnions(d, elem, r.items[i], p)
    case Map(elem) => r.Obj? ==> forall k :: k in r.members ==> AtUnions(d, elem, r.members[k], p)
    case Union(vs, _, _) =>
      vs != [] && Enveloped(t, r) ==>
        && p(t, VariantOf(t, r), Flat(d, t, r))
        && AtUnions(d, vs[VariantOf(t, r)].attr, r.members[ValueKey(t)], p)
    case _ => true
  }

  /** Every flattened branch value is there, is not read as tagged, and is the first choice's. */
  ghost predicate Unambiguous(d: Design, strict: bool, t: Ty, r: Json)
    requires Grounded(d)
  {
    AtUnions(d, t, r, (u: Ty, i: nat, v: Json) =>
      u.Union? && !v.Null? && Grounded(d) && ReadAsFlat(d, strict, u, v) && FirstChoice(d, u.variants, v, i))
  }

  /** Flattening this value and rewriting it again gives it back. */
  ghost predicate Undone(d: Design, strict: bool, t: Ty, r: Json)
    requires Grounded(d)
  {
    Canon(d, strict, t, Flat(d, t, r)) == Some(r)
  }

  /**
   * What the rewriting is for: it gives back the tagged value a flattened example
   * was made from, exactly when each branch value is read as flattened and is the
   * first choice's.
   */
  lemma {:induction false} FlatteningIsUndone(d: Design, strict: bool, t: Ty, r: Json)
    requires Sound(d) && WellFormed(t) && Canonical(d, t, r)
    ensures Canon(d, strict, t, Flat(d, t, r)) == Some(r) <==> Unambiguous(d, strict, t, r)
    decreases r, Level(d, t), t
  {
    match t {
      case User(n) =>
        if n in d.types {
          FlatteningIsUndone(d, strict, d.types[n], r);
        }
      case Object(fields) =>
        if r.Obj? {
          forall k | k in r.members
            ensures Undone(d, strict, ChildOf(fields, k), r.members[k]) <==> Unambiguous(d, strict, ChildOf(fields, k), r.members[k])
          {
            ChildIsWellFormed(fields, k);
            FlatteningIsUndone(d, strict, ChildOf(fields, k), r.members[k]);
          }
          ObjectIsUndone(d, strict, t, r);
        }
      case Array(elem) =>
        if r.Arr? {
          forall i | 0 <= i < |r.items|
            ensures Undone(d, strict, elem, r.items[i]) <==> Unambiguous(d, strict, elem, r.items[i])
          {
            FlatteningIsUndone(d, strict, elem, r.items[i]);
          }
          ArrayIsUndone(d, strict, t, r);
        }
      case Map(elem) =>
        if r.Obj? {
          forall k | k in r.members
            ensures Undone(d, strict, elem, r.members[k]) <==> Unambiguous(d, strict, elem, r.members[k])
          {
            FlatteningIsUndone(d, strict, elem, r.members[k]);
          }
          MapIsUndone(d, strict, t, r);
        }
      case Union(vs, _, _) =>
        if vs != [] && Enveloped(t, r) {
          FlatteningIsUndone(d, strict, vs[VariantOf(t, r)].attr, r.members[ValueKey(t)]);
          BranchIsUndone(d, strict, t, r);
        }
      case _ =>
    }
  }

  /** An object is rewritten member by member. */
  lemma ObjectIsUndone(d: Design, strict: bool, t: Ty, r: Json)
    requires Grounded(d) && t.Object? && r.Obj?
    requires forall k :: k in r.members ==>
      (Undone(d, strict, ChildOf(t.fields, k), r.members[k]) <==> Unambiguous(d, strict, ChildOf(t.fields, k), r.members[k]))
    ensures Undone(d, strict, t, r) <==> Unambiguous(d, strict, t, r)
  {
    ObjectIsUndoneByMembers(d, strict, t, r);
  }

  lemma ObjectIsUndoneByMembers(d: Design, strict: bool, t: Ty, r: Json)
    requires Grounded(d) && t.Object? && r.Obj?
    ensures Undone(d, strict, t, r) <==> forall k :: k in r.members ==> Undone(d, strict, ChildOf(t.fields, k), r.members[k])
  {
    var v := Flat(d, t, r);
    assert forall k :: k in r.members ==> v.members[k] == Flat(d, ChildOf(t.fields, k), r.members[k]);
    if forall k :: k in r.members ==> Undone(d, strict, ChildOf(t.fields, k), r.members[k]) {
      assert Canon(d, strict, t, v).value.members == r.members;
    }
  }

  /** A map is rewritten member by member. */
  lemma MapIsUndone(d: Design, strict: bool, t: Ty, r: Json)
    requires Grounded(d) && t.Map? && r.Obj?
    requires forall k :: k in r.members ==>
      (Undone(d, strict, t.elem, r.members[k]) <==> Unambiguous(d, strict, t.elem, r.members[k]))
    ensures Undone(d, strict, t, r) <==> Unambiguous(d, strict, t, r)
  {
    var v := Flat(d, t, r);
    assert forall k :: k in r.members ==> v.members[k] == Flat(d, t.elem, r.members[k]);
    if forall k :: k in r.members ==> Undone(d, strict, t.elem, r.members[k]) {
      assert Canon(d, strict, t, v).value.members == r.members;
    }
  }

  /** An array is rewritten item by item. */
  lemma ArrayIsUndone(d: Design, strict: bool, t: Ty, r: Json)
    requires Grounded(d) && t.Array? && r.Arr?
    requires forall i :: 0 <= i < |r.items| ==>
      (Undone(d, strict, t.elem, r.items[i]) <==> Unambiguous(d, strict, t.elem, r.items[i]))
    ensures Undone(d, strict, t, r) <==> Unambiguous(d, strict, t, r)
  {
    var v := Flat(d, t, r);
    assert forall i :: 0 <= i < |r.items| ==> v.items[i] == Flat(d, t.elem, r.items[i]);
    if forall i :: 0 <= i < |r.items| ==> Undone(d, strict, t.elem, r.items[i]) {
      assert Canon(d, strict, t, v).value.items == r.items;
    }
  }

  lemma BranchIsUndone(d: Design, strict: bool, t: Ty, r: Json)
    requires Sound(d) && t.Union? && WellFormed(t) && t.variants != [] && Enveloped(t, r)
    requires var attr, x := t.variants[VariantOf(t, r)].attr, r.members[ValueKey(t)];
             Undone(d, strict, attr, x) <==> Unambiguous(d, strict, attr, x)
    ensures Undone(d, strict, t, r) <==> Unambiguous(d, strict, t, r)
  {
    UnionIsUndone(d, strict, t, r);
  }

  lemma UnionIsUndone(d: Design, strict: bool, t: Ty, r: Json)
    requires Sound(d) && t.Union? && WellFormed(t) && t.variants != [] && Enveloped(t, r)
    ensures var i, v := VariantOf(t, r), Flat(d, t, r);
            Canon(d, strict, t, v) == Some(r) <==>
            !v.Null? && ReadAsFlat(d, strict, t, v) && FirstChoice(d, t.variants, v, i) &&
            Canon(d, strict, t.variants[i].attr, v) == Some(r.members[ValueKey(t)])
  {
    var i, v := VariantOf(t, r), Flat(d, t, r);
    if !v.Null? && !ReadAsFlat(d, strict, t, v) {
      TaggedIsNotUndone(d, strict, t, r);
    } else if !v.Null? {
      match Pick(d, t.variants, v) {
        case None =>
          UnmatchedHasNoAnswer(d, strict, t, v);
        case Some(j) =>
          FlattenedTakesFirstChoice(d, strict, t, v, j);
          if Canon(d, strict, t.variants[j].attr, v).Some? {
            EnvelopesDiffer(t, r, j, Canon(d, strict, t.variants[j].attr, v).value);
          }
          if FirstChoice(d, t.variants, v, i) {
            ChoiceIsUnique(d, t.variants, v, i, j);
          }
      }
    }
  }

  /** A flattened value read as tagged is taken apart further: what it was made from does not come back. */
  lemma TaggedIsNotUndone(d: Design, strict: bool, t: Ty, r: Json)
    requires Sound(d) && t.Union? && WellFormed(t) && t.variants != [] && Enveloped(t, r)
    requires !Flat(d, t, r).Null? && !ReadAsFlat(d, strict, t, Flat(d, t, r))
    ensures Canon(d, strict, t, Flat(d, t, r)) != Some(r)
  {
    var v := Flat(d, t, r);
    var i: nat :| TaggedAs(t, v, i) &&
      (strict || (ValueKey(t) in v.members && Canon(d, strict, t.variants[i].attr, v.members[ValueKey(t)]).Some?));
    TaggedKeepsItsVariant(d, strict, t, v, i);
    if Canon(d, strict, t, v) == Some(r) {
      var x, attr := v.members[ValueKey(t)], t.variants[i].attr;
      EnvelopesDiffer(t, r, i, Canon(d, strict, attr, x).value);
      var n := SomeDepth(v);
      assert DepthAtMost(x, n - 1);
      FlatteningStops(d, strict, attr, x, v, n);
    }
  }

  /** A value is not what flattening the rewriting of one of its members gives. */
  lemma {:induction false} FlatteningStops(d: Design, strict: bool, t: Ty, x: Json, v: Json, n: nat)
    requires Sound(d) && WellFormed(t) && Canon(d, strict, t, x).Some? && v.Obj? && x in v.members.Values
    requires DepthAtMost(v, n)
    ensures Flat(d, t, Canon(d, strict, t, x).value) != v
  {
    if Flat(d, t, Canon(d, strict, t, x).value) == v {
      FlatteningOnlyShrinks(d, strict, t, x, n - 1);
      FlatteningStops(d, strict, t, x, v, n - 1);
    }
  }

  /** The value is nested at most this deep. */
  ghost predicate DepthAtMost(v: Json, n: nat) {
    match v
    case Obj(members) => n > 0 && forall k :: k in members ==> DepthAtMost(members[k], n - 1)
    case Arr(items) => n > 0 && forall i :: 0 <= i < |items| ==> DepthAtMost(items[i], n - 1)
    case _ => true
  }

  lemma {:induction false} DeeperIsFine(v: Json, n: nat, m: nat)
    requires DepthAtMost(v, n) && n <= m
    ensures DepthAtMost(v, m)
  {
    match v {
      case Obj(members) =>
        forall k | k in members ensures DepthAtMost(members[k], m - 1) {
          DeeperIsFine(members[k], n - 1, m - 1);
        }
      case Arr(items) =>
        forall i | 0 <= i < |items| ensures DepthAtMost(items[i], m - 1) {
          DeeperIsFine(items[i], n - 1, m - 1);
        }
      case _ =>
    }
  }

  lemma {:induction false} SomeDepth(v: Json) returns (n: nat)
    ensures DepthAtMost(v, n) && n > 0
    decreases v, 1
  {
    match v {
      case Obj(members) =>
        n := DepthOfMembers(v, members.Keys);
        n := n + 1;
      case Arr(items) =>
        n := DepthOfItems(v, |items|);
        n := n + 1;
      case _ =>
        n := 1;
    }
  }

  lemma {:induction false} DepthOfMembers(v: Json, keys: set<string>) returns (n: nat)
    requires v.Obj? && keys <= v.members.Keys
    ensures forall k :: k in keys ==> DepthAtMost(v.members[k], n)
    decreases v, 0, |keys|
  {
    if keys == {} {
      n := 0;
    } else {
      var key :| key in keys;
      var rest := DepthOfMembers(v, keys - {key});
      var own := SomeDepth(v.members[key]);
      n := Max(rest, own);
      forall k | k in keys ensures DepthAtMost(v.members[k], n) {
        DeeperIsFine(v.members[k], if k == key then own else rest, n);
      }
    }
  }

  lemma {:induction false} DepthOfItems(v: Json, count: nat) returns (n: nat)
    requires v.Arr? && count <= |v.items|
    ensures forall i :: 0 <= i < count ==> DepthAtMost(v.items[i], n)
    decreases v, 0, count
  {
    if count == 0 {
      n := 0;
    } else {
      var rest := DepthOfItems(v, count - 1);
      var own := SomeDepth(v.items[count - 1]);
      n := Max(rest, own);
      forall i | 0 <= i < count ensures DepthAtMost(v.items[i], n) {
        DeeperIsFine(v.items[i], if i == count - 1 then own else rest, n);
      }
    }
  }

  /** Rewriting and flattening again never nests a value deeper. */
  lemma {:induction false} FlatteningOnlyShrinks(d: Design, strict: bool, t: Ty, v: Json, n: nat)
    requires Sound(d) && WellFormed(t) && Canon(d, strict, t, v).Some? && DepthAtMost(v, n)
    ensures DepthAtMost(Flat(d, t, Canon(d, strict, t, v).value), n)
    decreases v, Level(d, t), t
  {
    var r := Canon(d, strict, t, v).value;
    match t {
      case User(u) =>
        if u in d.types {
          FlatteningOnlyShrinks(d, strict, d.types[u], v, n);
        }
      case Object(fields) =>
        if v.Obj? {
          forall k | k in v.members ensures DepthAtMost(Flat(d, ChildOf(fields, k), r.members[k]), n - 1) {
            ChildIsWellFormed(fields, k);
            FlatteningOnlyShrinks(d, strict, ChildOf(fields, k), v.members[k], n - 1);
          }
        }
      case Array(elem) =>
        if v.Arr? {
          forall i | 0 <= i < |v.items| ensures DepthAtMost(Flat(d, elem, r.items[i]), n - 1) {
            FlatteningOnlyShrinks(d, strict, elem, v.items[i], n - 1);
          }
        }
      case Map(elem) =>
        if v.Obj? {
          forall k | k in v.members ensures DepthAtMost(Flat(d, elem, r.members[k]), n - 1) {
            FlatteningOnlyShrinks(d, strict, elem, v.members[k], n - 1);
          }
        }
      case Union(vs, _, _) =>
        if !v.Null? && vs != [] {
          var i, inner := Chosen(d, strict, t, v);
          LevelOfVariant(d, vs, i);
          if inner != v {
            DeeperIsFine(inner, n - 1, n);
          }
          FlatteningOnlyShrinks(d, strict, vs[i].attr, inner, n);
          FlatOfEnvelope(d, t, i, Canon(d, strict, vs[i].attr, inner).value);
        }
      case _ =>
    }
  }

  /** Flattening takes an envelope off. */
  lemma FlatOfEnvelope(d: Design, t: Ty, i: nat, x: Json)
    requires Grounded(d) && t.Union? && WellFormed(t) && i < |t.variants|
    ensures Flat(d, t, Envelope(t, t.variants[i].name, x)) == Flat(d, t.variants[i].attr, x)
  {
    var r := Envelope(t, t.variants[i].name, x);
    assert r.members[TypeKey(t)] == Text(t.variants[i].name) && r.members[ValueKey(t)] == x;
    assert Enveloped(t, r) && VariantOf(t, r) == i;
  }

  /** An envelope tells its variant and its value. */
  lemma EnvelopesDiffer(t: Ty, r: Json, j: nat, x: Json)
    requires t.Union? && WellFormed(t) && Enveloped(t, r) && j < |t.variants|
    ensures Obj(map[TypeKey(t) := Text(t.variants[j].name), ValueKey(t) := x]) == r <==>
            j == VariantOf(t, r) && x == r.members[ValueKey(t)]
  {
    var e := map[TypeKey(t) := Text(t.variants[j].name), ValueKey(t) := x];
    assert e[TypeKey(t)] == Text(t.variants[j].name) && e[ValueKey(t)] == x;
    if j == VariantOf(t, r) && x == r.members[ValueKey(t)] {
      assert e == r.members;
    }
  }

  /** A user type stands for what it unfolds to. */
  lemma {:induction false} UnwrappingKeepsAnswers(d: Design, strict: bool, t: Ty, v: Json)
    requires Grounded(d)
    ensures Canon(d, strict, t, v) == Canon(d, strict, Unwrap(d, t), v)
    decreases Level(d, t)
  {
    if t.User? && t.name in d.types {
      UnwrappingKeepsAnswers(d, strict, d.types[t.name], v);
    }
  }

  /** Two object branches, the keys of the first among those of the second. */
  const FEWER := [Field("x", None, Plain("int"))]
  const MORE := [Field("x", None, Plain("int")), Field("y", None, Plain("int"))]
  const NESTED_KEYS := Union([Variant("a", Object(FEWER)), Variant("b", Object(MORE))], "", "")

  lemma NestedKeysAreWellFormed(d: Design)
    requires Grounded(d)
    ensures WellFormed(NESTED_KEYS) && TypeKey(NESTED_KEYS) != "x"
    ensures MatchesKeys(d, Object(FEWER), Obj(map["x" := Scalar("1")]))
  {
    assert |TypeKey(NESTED_KEYS)| == 4 && |"x"| == 1;
    assert FEWER[0].name == "x";
  }

  lemma ScalarsStay(d: Design, strict: bool, fields: seq<Field>, v: Json)
    requires Grounded(d) && v == Obj(map["x" := Scalar("1")]) && ChildOf(fields, "x") == Plain("int")
    ensures Canonical(d, Object(fields), v) && Flat(d, Object(fields), v) == v && Canon(d, strict, Object(fields), v) == Some(v)
  {
    var x, r := v.members["x"], Canon(d, strict, Object(fields), v);
    assert Canon(d, strict, Plain("int"), x) == Some(x) && Flat(d, Plain("int"), x) == x;
    assert forall k :: k in v.members ==> k == "x";
    assert r.Some? && r.value.members == v.members;
    assert Flat(d, Object(fields), v).members == v.members;
  }

  /** A value of the later branch that leaves out its own key comes back as one of the earlier branch. */
  lemma EarlierBranchWins(d: Design, strict: bool)
    requires Grounded(d)
    ensures var v := Obj(map["x" := Scalar("1")]);
            && WellFormed(NESTED_KEYS) && Canonical(d, NESTED_KEYS, Envelope(NESTED_KEYS, "b", v))
            && Flat(d, NESTED_KEYS, Envelope(NESTED_KEYS, "b", v)) == v
            && Canon(d, strict, NESTED_KEYS, v) == Some(Envelope(NESTED_KEYS, "a", v))
  {
    var v := Obj(map["x" := Scalar("1")]);
    NestedKeysAreWellFormed(d);
    ScalarsStay(d, strict, FEWER, v);
    ScalarsStay(d, strict, MORE, v);
    WinsOver(d, strict, NESTED_KEYS, 0, 1, v);
  }

  lemma WinsOver(d: Design, strict: bool, t: Ty, i: nat, j: nat, v: Json)
    requires Grounded(d) && t.Union? && WellFormed(t) && i < |t.variants| && j < |t.variants|
    requires v.Obj? && TypeKey(t) !in v.members
    requires MatchesKeys(d, t.variants[i].attr, v) && forall k :: 0 <= k < i ==> !MatchesKeys(d, t.variants[k].attr, v)
    requires Canon(d, strict, t.variants[i].attr, v) == Some(v)
    requires Canonical(d, t.variants[j].attr, v) && Flat(d, t.variants[j].attr, v) == v
    ensures Canonical(d, t, Envelope(t, t.variants[j].name, v))
    ensures Flat(d, t, Envelope(t, t.variants[j].name, v)) == v
    ensures Canon(d, strict, t, v) == Some(Envelope(t, t.variants[i].name, v))
  {
    EnvelopeIsCanonical(d, t, j, v);
    FlatOfEnvelope(d, t, j, v);
    FlattenedTakesFirstChoice(d, strict, t, v, i);
  }

  lemma EnvelopeIsCanonical(d: Design, t: Ty, i: nat, x: Json)
    requires Grounded(d) && t.Union? && WellFormed(t) && i < |t.variants| && Canonical(d, t.variants[i].attr, x)
    ensures Canonical(d, t, Envelope(t, t.variants[i].name, x))
  {
    var r := Envelope(t, t.variants[i].name, x);
    assert r.members[TypeKey(t)] == Text(t.variants[i].name) && r.members[ValueKey(t)] == x;
  }
}
