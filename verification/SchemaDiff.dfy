/** Tool contracts: the argument check and the schema comparison. */
module SchemaDiff {
  import opened Lists
  import opened Options
  import opened Json
  import opened Canon

  datatype TypeDecl = Untyped | One(name: string) | Many(names: seq<string>)

  /** A schema as the check reads it. What is not an object constrains nothing. */
  datatype Schema =
    | Anything
    | Schema(types: TypeDecl, choices: Option<seq<Value>>, properties: List<Property>, required: seq<string>,
             additional: Option<bool>, items: Option<Schema>)

  datatype Property = Property(name: string, schema: Schema)

  function Declared(props: List<Property>, name: string): Option<Schema> {
    match props
    case Nil => None
    case Cons(p, rest) => if p.name == name then Some(p.schema) else Declared(rest, name)
  }

  /** What the check takes from number handling: whether a number text is whole, and the encoded form
      values are compared by. */
  datatype Numbers = Numbers(whole: string -> bool, encoded: Value -> string)

  // ---------------------------------------------------------------- the check

  /** The one type name a schema is checked by; a union of types is not checked. */
  function TypeName(s: Schema): string {
    if s.Schema? && s.types.One? then s.types.name else ""
  }

  predicate InChoices(g: Numbers, choices: seq<Value>, v: Value) {
    exists i | 0 <= i < |choices| :: g.encoded(choices[i]) == g.encoded(v)
  }

  predicate ScalarConforms(g: Numbers, v: Value, name: string) {
    match name
    case "string" => v.Str?
    case "boolean" => v.Bool?
    case "integer" => v.Num? && g.whole(v.text)
    case "number" => v.Num?
    case _ => true
  }

  predicate Conforms(g: Numbers, v: Value, s: Schema)
    decreases v, 1
  {
    s.Schema? ==>
      && (s.choices.Some? ==> InChoices(g, s.choices.value, v))
      && if TypeName(s) == "object" then
           && v.Obj?
           && (forall i | 0 <= i < |s.required| :: Lookup(v.fields, s.required[i]).Some?)
           && FieldsConform(g, v.fields, s)
         else if TypeName(s) == "array" then v.Arr? && (s.items.Some? ==> ItemsConform(g, v.items, s.items.value))
         else ScalarConforms(g, v, TypeName(s))
  }

  predicate FieldsConform(g: Numbers, fields: List<Field>, s: Schema)
    requires s.Schema?
    decreases fields, 0
  {
    fields.Cons? ==>
      && (match Declared(s.properties, fields.head.key)
          case Some(p) => Conforms(g, fields.head.val, p)
          case None => s.additional != Some(false))
      && FieldsConform(g, fields.tail, s)
  }

  predicate ItemsConform(g: Numbers, items: List<Value>, s: Schema)
    decreases items, 0
  {
    items.Cons? ==> Conforms(g, items.head, s) && ItemsConform(g, items.tail, s)
  }

  // ---------------------------------------------------------------- the comparison

  datatype Change = PropertyRemoved(name: string) | TypeChanged(name: string) | AdditionalForbidden
                  | PropertyAdded(name: string) | RequiredAdded(name: string)
  {
    predicate Breaking() { !PropertyAdded? }
  }

  function TypeSet(s: Schema): set<string> {
    if !s.Schema? then {}
    else match s.types
      case Untyped => {}
      case One(n) => {n} - {""}
      case Many(ns) => (set n | n in ns) - {""}
  }

  predicate AdditionalAllowed(s: Schema) {
    s.Schema? ==> s.additional != Some(false)
  }

  function Required(s: Schema): set<string> {
    if s.Schema? then set r | r in s.required else {}
  }

  function Properties(s: Schema): List<Property> {
    if s.Schema? then s.properties else Nil
  }

  predicate Narrowed(was: Schema, now: Schema) {
    TypeSet(was) != {} && TypeSet(now) != {} && !(TypeSet(was) <= TypeSet(now))
  }

  /** What is reported for a property of the old schema: it is gone, or a type of it is. */
  function OldChange(was: Schema, now: Schema, name: string): Option<Change> {
    match (Declared(Properties(was), name), Declared(Properties(now), name))
    case (Some(_), None) => Some(PropertyRemoved(name))
    case (Some(p), Some(q)) => if Narrowed(p, q) then Some(TypeChanged(name)) else None
    case _ => None
  }

  /** What is reported for a property of the new schema: it was not there before. */
  function NewChange(was: Schema, now: Schema, name: string): Option<Change> {
    if Declared(Properties(now), name).None? || Declared(Properties(was), name).Some? then None
    else if name in Required(now) && name !in Required(was) then Some(RequiredAdded(name))
    else Some(PropertyAdded(name))
  }

  /** What is reported for a required name: as a property it used to be optional. */
  function RequiredChange(was: Schema, now: Schema, name: string): Option<Change> {
    if Declared(Properties(now), name).Some? && Declared(Properties(was), name).Some?
       && name in Required(now) && name !in Required(was)
    then Some(RequiredAdded(name)) else None
  }

  predicate Reports(was: Schema, now: Schema, c: Change) {
    match c
    case AdditionalForbidden => AdditionalAllowed(was) && !AdditionalAllowed(now)
    case _ => Some(c) in {OldChange(was, now, c.name), NewChange(was, now, c.name), RequiredChange(was, now, c.name)}
  }

  function Names(props: List<Property>): seq<string> {
    match props
    case Nil => []
    case Cons(p, rest) => [p.name] + Names(rest)
  }

  function Collect(f: string -> Option<Change>, names: seq<string>): seq<Change> {
    if names == [] then []
    else
      var n := |names| - 1;
      Collect(f, names[..n]) + if f(names[n]).Some? then [f(names[n]).value] else []
  }

  method Gather(f: string -> Option<Change>, names: seq<string>) returns (out: seq<Change>)
    ensures out == Collect(f, names)
  {
    out := [];
    var i := 0;
    while i < |names|
      invariant 0 <= i <= |names| && out == Collect(f, names[..i])
    {
      assert names[..i + 1][..i] == names[..i];
      var c := f(names[i]);
      if c.Some? { out := out + [c.value]; }
      i := i + 1;
    }
    assert names[..|names|] == names;
  }

  /** The comparison: removed and narrowed properties, forbidden extras, added properties, and
      properties that became required. */
  method SchemaChanges(was: Schema, now: Schema) returns (out: seq<Change>)
    ensures forall c :: c in out <==> Reports(was, now, c)
  {
    var removed := Gather(name => OldChange(was, now, name), Names(Properties(was)));
    var extras := Extras(was, now);
    var added := Gather(name => NewChange(was, now, name), Names(Properties(now)));
    var required := Gather(name => RequiredChange(was, now, name), RequiredNames(now));
    out := removed + extras + added + required;
    forall c ensures c in out <==> Reports(was, now, c) { CollectedExact(was, now, c); }
  }

  function Extras(was: Schema, now: Schema): seq<Change> {
    if AdditionalAllowed(was) && !AdditionalAllowed(now) then [AdditionalForbidden] else []
  }

  function RequiredNames(s: Schema): seq<string> {
    if s.Schema? then s.required else []
  }

  lemma CollectedExact(was: Schema, now: Schema, c: Change)
    ensures Reports(was, now, c)
      <==> c in Collect(name => OldChange(was, now, name), Names(Properties(was))) || c in Extras(was, now)
           || c in Collect(name => NewChange(was, now, name), Names(Properties(now)))
           || c in Collect(name => RequiredChange(was, now, name), RequiredNames(now))
  {
    CollectExact(name => OldChange(was, now, name), Names(Properties(was)), c);
    CollectExact(name => NewChange(was, now, name), Names(Properties(now)), c);
    CollectExact(name => RequiredChange(was, now, name), RequiredNames(now), c);
    if !c.AdditionalForbidden? {
      NamesExact(Properties(was), c.name);
      NamesExact(Properties(now), c.name);
    }
  }

  lemma {:induction false} NamesExact(props: List<Property>, name: string)
    ensures name in Names(props) <==> Declared(props, name).Some?
  {
    if props.Cons? { NamesExact(props.tail, name); }
  }

  /** Every function collected over reports a name under itself. */
  lemma {:induction false} CollectExact(f: string -> Option<Change>, names: seq<string>, c: Change)
    requires forall n :: f(n).Some? ==> !f(n).value.AdditionalForbidden? && f(n).value.name == n
    ensures c in Collect(f, names) <==> !c.AdditionalForbidden? && c.name in names && f(c.name) == Some(c)
  {
    if names != [] { CollectExact(f, names[..|names| - 1], c); }
  }

  /** A property is declared, a type is named, a name is required. */
  predicate HasProperty(s: Schema, name: string) { s.Schema? && name in Names(s.properties) }

  predicate NamesType(s: Schema, t: string) {
    s.Schema? && t != "" && (s.types == One(t) || (s.types.Many? && t in s.types.names))
  }

  predicate Requires(s: Schema, name: string) { s.Schema? && name in s.required }

  lemma TypesNamed(s: Schema, t: string)
    ensures t in TypeSet(s) <==> NamesType(s, t)
  {
  }

  /** Exactly what is reported of a name, and exactly what of it is called breaking: a property that is gone;
      one that lost a type while both schemas name types; a new one, unless it is newly required; a declared
      name that is newly required; extra properties, once allowed, now forbidden. Only added properties are
      not breaking. */
  lemma ReportedIff(was: Schema, now: Schema, name: string)
    ensures Reports(was, now, PropertyRemoved(name)) <==> HasProperty(was, name) && !HasProperty(now, name)
    ensures Reports(was, now, PropertyAdded(name))
      <==> !HasProperty(was, name) && HasProperty(now, name) && !(Requires(now, name) && !Requires(was, name))
    ensures Reports(was, now, RequiredAdded(name)) <==> HasProperty(now, name) && Requires(now, name) && !Requires(was, name)
    ensures Reports(was, now, TypeChanged(name))
      <==> && (exists t :: NamesType(PropertyOf(was, name), t) && !NamesType(PropertyOf(now, name), t))
           && (exists t :: NamesType(PropertyOf(now, name), t))
    ensures Reports(was, now, AdditionalForbidden)
      <==> now.Schema? && now.additional == Some(false) && !(was.Schema? && was.additional == Some(false))
    ensures !PropertyAdded(name).Breaking() && PropertyRemoved(name).Breaking() && TypeChanged(name).Breaking()
    ensures RequiredAdded(name).Breaking() && AdditionalForbidden.Breaking()
  {
    NamesExact(Properties(was), name);
    NamesExact(Properties(now), name);
    NarrowedIff(PropertyOf(was, name), PropertyOf(now, name));
  }

  function PropertyOf(s: Schema, name: string): Schema {
    var p := Declared(Properties(s), name);
    if p.Some? then p.value else Anything
  }

  lemma NarrowedIff(p: Schema, q: Schema)
    ensures Narrowed(p, q) <==> (exists t :: NamesType(p, t) && !NamesType(q, t)) && exists t :: NamesType(q, t)
  {
    forall t ensures (t in TypeSet(p) <==> NamesType(p, t)) && (t in TypeSet(q) <==> NamesType(q, t)) {
      TypesNamed(p, t);
      TypesNamed(q, t);
    }
    if Narrowed(p, q) {
      var t :| t in TypeSet(p) && t !in TypeSet(q);
      var u :| u in TypeSet(q);
      assert NamesType(p, t) && !NamesType(q, t) && NamesType(q, u);
    }
  }

  // ---------------------------------------------------------------- what the comparison is worth

  /** Nothing is reported that is called breaking. */
  ghost predicate NothingBreaking(was: Schema, now: Schema) {
    forall c :: Reports(was, now, c) ==> !c.Breaking()
  }

  /** The choices of a schema, if it has any. */
  function Choices(s: Schema): Option<seq<Value>> {
    if s.Schema? then s.choices else None
  }

  /** A schema of types and choices, which are decoded values, and no structure of its own. */
  predicate FlatProperty(s: Schema) {
    s.Schema? ==>
      && s.properties.Nil? && s.required == [] && s.additional.None? && s.items.None?
      && (s.choices.Some? ==> forall c <- s.choices.value :: Normal(c))
  }

  predicate FlatProperties(props: List<Property>) {
    props.Cons? ==> FlatProperty(props.head.schema) && FlatProperties(props.tail)
  }

  predicate Flat(s: Schema) {
    s.Schema? && s.types == One("object") && s.choices.None? && FlatProperties(s.properties)
  }

  /** Types the check looks at. */
  predicate Checked(name: string) {
    name in {"object", "array", "string", "boolean", "integer", "number"}
  }

  predicate OfType(g: Numbers, v: Value, name: string) {
    if name == "object" then v.Obj? else if name == "array" then v.Arr? else ScalarConforms(g, v, name)
  }

  lemma {:induction false} FreeFields(g: Numbers, fields: List<Field>, s: Schema)
    requires s.Schema? && s.properties.Nil? && s.additional.None?
    ensures FieldsConform(g, fields, s)
  {
    if fields.Cons? { FreeFields(g, fields.tail, s); }
  }

  lemma FlatConforms(g: Numbers, v: Value, s: Schema)
    requires FlatProperty(s)
    ensures Conforms(g, v, s)
      <==> OfType(g, v, TypeName(s)) && (Choices(s).Some? ==> InChoices(g, Choices(s).value, v))
  {
    if s.Schema? && v.Obj? { FreeFields(g, v.fields, s); }
  }

  lemma {:induction false} DeclaredFlat(props: List<Property>, name: string)
    requires FlatProperties(props)
    ensures Declared(props, name).Some? ==> FlatProperty(Declared(props, name).value)
  {
    if props.Cons? { DeclaredFlat(props.tail, name); }
  }

  predicate IsNew(was: Schema, now: Schema, name: string) {
    Declared(Properties(now), name).Some? && Declared(Properties(was), name).None?
  }

  /** The arguments use no property that only the new schema declares. */
  ghost predicate NoNewKeys(v: Value, was: Schema, now: Schema) {
    v.Obj? && forall k :: Lookup(v.fields, k).Some? ==> !IsNew(was, now, k)
  }

  /** Every argument object the old schema accepts, and that uses no newly declared property, is
      accepted by the new one. */
  ghost predicate KeepsCallers(g: Numbers, was: Schema, now: Schema) {
    forall v :: Normal(v) && Conforms(g, v, was) && NoNewKeys(v, was, now) ==> Conforms(g, v, now)
  }

  /** What is known of the encoding: values of equal encoding are of the same types, and strings are told
      apart, by themselves and inside an array or an object. */
  ghost predicate Encodes(g: Numbers) {
    && (forall a, b :: g.encoded(a) == g.encoded(b) ==> SameTypes(g, a, b))
    && (forall name, a, b :: g.encoded(Holding(name, a)) == g.encoded(Holding(name, b)) ==> a == b)
  }

  ghost predicate SameTypes(g: Numbers, a: Value, b: Value) {
    forall name :: OfType(g, a, name) <==> OfType(g, b, name)
  }

  /** A value of a type, other than booleans and numbers, that holds a string. */
  function Holding(name: string, s: string): Value {
    match name
    case "object" => Obj(Cons(Field("k", Str(s)), Nil))
    case "array" => Arr(Cons(Str(s), Nil))
    case _ => Str(s)
  }

  /** The choices list every value of a property. */
  ghost predicate Listed(g: Numbers, p: Schema, choices: seq<Value>) {
    match Choices(p)
    case Some(own) => forall c <- own :: OfType(g, c, TypeName(p)) ==> InChoices(g, choices, c)
    case None =>
      match TypeName(p)
      case "boolean" => InChoices(g, choices, Bool(false)) && InChoices(g, choices, Bool(true))
      case "integer" => forall t :: g.whole(t) ==> InChoices(g, choices, Num(t))
      case "number" => forall t :: InChoices(g, choices, Num(t))
      case _ => false
  }

  /** What the comparison does not look at: a property the check did not test by type is not tested now, or
      all its choices pass the test; and the new choices, if any, list every value there was. */
  ghost predicate PropertyKept(g: Numbers, p: Schema, q: Schema) {
    && (TypeName(p) == "" ==>
        if Choices(p).Some? then forall c <- Choices(p).value :: OfType(g, c, TypeName(q)) else !Checked(TypeName(q)))
    && (Choices(q).Some? ==> Listed(g, p, Choices(q).value))
  }

  ghost predicate PropertiesKept(g: Numbers, was: Schema, now: Schema) {
    forall name <- Names(Properties(now)) ::
      var p, q := Declared(Properties(was), name), Declared(Properties(now), name);
      p.Some? && q.Some? ==> PropertyKept(g, p.value, q.value)
  }

  /** Whatever is required without being declared was required before. */
  predicate RequiredKnown(was: Schema, now: Schema) {
    forall r <- Required(now) :: Declared(Properties(now), r).None? ==> r in Required(was)
  }

  /** A type that is not reported as changed: kept, or no longer tested. */
  predicate TypeStays(p: Schema, q: Schema) {
    TypeName(p) != "" ==> TypeName(q) in {TypeName(p), ""}
  }

  lemma UnreportedType(was: Schema, now: Schema, name: string)
    requires NothingBreaking(was, now)
    requires Declared(Properties(was), name).Some? && Declared(Properties(now), name).Some?
    ensures TypeStays(Declared(Properties(was), name).value, Declared(Properties(now), name).value)
  {
    var p, q := Declared(Properties(was), name).value, Declared(Properties(now), name).value;
    assert !Reports(was, now, TypeChanged(name));
    if TypeName(p) != "" && TypeName(q) != "" {
      assert TypeName(p) in TypeSet(p) && TypeName(q) in TypeSet(q);
    }
  }

  lemma ListedHas(g: Numbers, p: Schema, choices: seq<Value>, v: Value)
    requires Encodes(g) && FlatProperty(p) && Listed(g, p, choices) && Conforms(g, v, p)
    ensures InChoices(g, choices, v)
  {
    FlatConforms(g, v, p);
    if Choices(p).Some? {
      var own := Choices(p).value;
      var i :| 0 <= i < |own| && g.encoded(own[i]) == g.encoded(v);
      assert own[i] in own && SameTypes(g, own[i], v);
      var j :| 0 <= j < |choices| && g.encoded(choices[j]) == g.encoded(own[i]);
    }
  }

  /** A value of a property that is kept stays acceptable. */
  lemma ValueStays(g: Numbers, p: Schema, q: Schema, v: Value)
    requires Encodes(g) && FlatProperty(p) && FlatProperty(q) && TypeStays(p, q) && PropertyKept(g, p, q)
    requires Conforms(g, v, p)
    ensures Conforms(g, v, q)
  {
    FlatConforms(g, v, p);
    FlatConforms(g, v, q);
    if TypeName(p) == "" && Choices(p).Some? {
      var own := Choices(p).value;
      var i :| 0 <= i < |own| && g.encoded(own[i]) == g.encoded(v);
      assert own[i] in own && SameTypes(g, own[i], v);
    }
    if Choices(q).Some? { ListedHas(g, p, Choices(q).value, v); }
  }

  lemma SharedStays(g: Numbers, was: Schema, now: Schema, name: string, v: Value)
    requires Encodes(g) && Flat(was) && Flat(now) && NothingBreaking(was, now) && PropertiesKept(g, was, now)
    requires Declared(Properties(was), name).Some? && Declared(Properties(now), name).Some?
    requires Conforms(g, v, Declared(Properties(was), name).value)
    ensures Conforms(g, v, Declared(Properties(now), name).value)
  {
    DeclaredFlat(Properties(was), name);
    DeclaredFlat(Properties(now), name);
    NamesExact(Properties(now), name);
    UnreportedType(was, now, name);
    ValueStays(g, Declared(Properties(was), name).value, Declared(Properties(now), name).value, v);
  }

  lemma {:induction false} FieldsStay(g: Numbers, was: Schema, now: Schema, fields: List<Field>)
    requires Encodes(g) && Flat(was) && Flat(now) && NothingBreaking(was, now) && PropertiesKept(g, was, now)
    requires FieldsConform(g, fields, was) && NoNewKeys(Obj(fields), was, now)
    ensures FieldsConform(g, fields, now)
  {
    if fields.Cons? {
      var k := fields.head.key;
      assert Lookup(fields, k).Some?;
      assert !Reports(was, now, PropertyRemoved(k)) && !Reports(was, now, AdditionalForbidden);
      if Declared(Properties(was), k).Some? { SharedStays(g, was, now, k, fields.head.val); }
      forall k' ensures Lookup(fields.tail, k').Some? ==> !IsNew(was, now, k') {
        assert Lookup(fields.tail, k').Some? ==> Lookup(fields, k').Some?;
      }
      FieldsStay(g, was, now, fields.tail);
    }
  }

  /** Soundness: when nothing breaking is reported, and what the comparison does not look at is kept,
      callers of the old schema are accepted by the new one. */
  lemma NothingBreakingKeeps(g: Numbers, was: Schema, now: Schema)
    requires Encodes(g) && Flat(was) && Flat(now) && NothingBreaking(was, now)
    requires PropertiesKept(g, was, now) && RequiredKnown(was, now)
    ensures KeepsCallers(g, was, now)
  {
    forall v | Normal(v) && Conforms(g, v, was) && NoNewKeys(v, was, now) ensures Conforms(g, v, now) {
      FieldsStay(g, was, now, v.fields);
      forall i | 0 <= i < |now.required| ensures Lookup(v.fields, now.required[i]).Some? {
        var r := now.required[i];
        assert r in Required(now) && !Reports(was, now, RequiredAdded(r));
        if r in Required(was) {
          var j :| 0 <= j < |was.required| && was.required[j] == r;
        }
      }
    }
  }

  // ---------------------------------------------------------------- exactly then

  /** Some value satisfies a property. */
  predicate HasValue(g: Numbers, p: Schema) {
    Choices(p).Some? ==> exists c <- Choices(p).value :: OfType(g, c, TypeName(p))
  }

  /** The old schema accepts some call that uses no newly declared property. */
  predicate Satisfiable(g: Numbers, was: Schema, now: Schema) {
    forall r <- Required(was) ::
      && !IsNew(was, now, r)
      && match Declared(Properties(was), r)
         case Some(p) => HasValue(g, p)
         case None => AdditionalAllowed(was)
  }

  function Sample(name: string): Value {
    match name
    case "object" => Obj(Nil)
    case "array" => Arr(Nil)
    case "string" => Str("")
    case "boolean" => Bool(true)
    case "integer" => Num("0")
    case "number" => Num("0")
    case _ => Null
  }

  /** The first of the choices that is of a type. */
  function FirstOf(g: Numbers, choices: seq<Value>, name: string): Value {
    if choices == [] then Null
    else if OfType(g, choices[0], name) then choices[0]
    else FirstOf(g, choices[1..], name)
  }

  lemma {:induction false} FirstOfFits(g: Numbers, choices: seq<Value>, name: string)
    requires exists c <- choices :: OfType(g, c, name)
    ensures FirstOf(g, choices, name) in choices && OfType(g, FirstOf(g, choices, name), name)
  {
    if !OfType(g, choices[0], name) {
      var c :| c in choices && OfType(g, c, name);
      assert c in choices[1..];
      FirstOfFits(g, choices[1..], name);
    }
  }

  function SampleFor(g: Numbers, was: Schema, name: string): Value {
    var p := Declared(Properties(was), name);
    if p.None? then Null
    else if Choices(p.value).Some? then FirstOf(g, Choices(p.value).value, TypeName(p.value))
    else Sample(TypeName(p.value))
  }

  /** The smallest call around some fields: those, and the required names. */
  function Smallest(g: Numbers, was: Schema, required: seq<string>, base: List<Field>): List<Field> {
    if required == [] then base
    else PutAbsent(Smallest(g, was, required[1..], base), Field(required[0], SampleFor(g, was, required[0])))
  }

  lemma SampleFits(g: Numbers, was: Schema, name: string)
    requires g.whole("0") && Flat(was)
    requires match Declared(was.properties, name) case Some(p) => HasValue(g, p) case None => AdditionalAllowed(was)
    ensures Normal(SampleFor(g, was, name)) && FieldFits(g, Field(name, SampleFor(g, was, name)), was)
  {
    DeclaredFlat(was.properties, name);
    if Declared(was.properties, name).Some? {
      var p := Declared(was.properties, name).value;
      FlatConforms(g, SampleFor(g, was, name), p);
      if Choices(p).Some? {
        FirstOfFits(g, Choices(p).value, TypeName(p));
        var c := SampleFor(g, was, name);
        var i :| 0 <= i < |Choices(p).value| && Choices(p).value[i] == c;
      }
    }
  }

  predicate FieldFits(g: Numbers, f: Field, s: Schema)
    requires s.Schema?
  {
    match Declared(s.properties, f.key)
    case Some(p) => Conforms(g, f.val, p)
    case None => s.additional != Some(false)
  }

  lemma {:induction false} PutConforms(g: Numbers, fields: List<Field>, f: Field, s: Schema)
    requires s.Schema? && FieldsConform(g, fields, s) && FieldFits(g, f, s)
    ensures FieldsConform(g, PutAbsent(fields, f), s)
  {
    if fields.Cons? && f.key != fields.head.key && !Less(f.key, fields.head.key) { PutConforms(g, fields.tail, f, s); }
  }

  lemma {:induction false} SmallestConforms(g: Numbers, was: Schema, now: Schema, required: seq<string>, base: List<Field>)
    requires g.whole("0") && Flat(was) && Satisfiable(g, was, now) && forall r <- required :: r in Required(was)
    requires NormalFields(base) && FieldsConform(g, base, was)
    ensures var fields := Smallest(g, was, required, base);
      && NormalFields(fields) && FieldsConform(g, fields, was)
      && (forall k :: Lookup(base, k).Some? ==> Lookup(fields, k) == Lookup(base, k))
      && (forall k :: Lookup(fields, k).Some? <==> k in required || Lookup(base, k).Some?)
  {
    if required != [] {
      var r := required[0];
      SmallestConforms(g, was, now, required[1..], base);
      var rest, f := Smallest(g, was, required[1..], base), Field(r, SampleFor(g, was, r));
      assert r in Required(was);
      SampleFits(g, was, r);
      PutAbsentNormal(rest, f);
      PutConforms(g, rest, f, was);
      PutLookups(rest, f);
      assert forall k :: k in required <==> k == r || k in required[1..];
    }
  }

  lemma PutLookups(fields: List<Field>, f: Field)
    requires NormalFields(fields)
    ensures forall k :: Lookup(PutAbsent(fields, f), k)
                        == (if Lookup(fields, k).None? && k == f.key then Some(f.val) else Lookup(fields, k))
  {
    forall k ensures Lookup(PutAbsent(fields, f), k)
                  == if Lookup(fields, k).None? && k == f.key then Some(f.val) else Lookup(fields, k)
    {
      PutAbsentLookup(fields, f, k);
    }
  }

  lemma {:induction false} LookedUpConforms(g: Numbers, fields: List<Field>, s: Schema, name: string)
    requires s.Schema? && FieldsConform(g, fields, s) && Lookup(fields, name).Some? && Declared(s.properties, name).Some?
    ensures Conforms(g, Lookup(fields, name).value, Declared(s.properties, name).value)
  {
    if Lookup(fields.tail, name).Some? { LookedUpConforms(g, fields.tail, s, name); }
  }

  /** A call the old schema accepts, with a given value at a property. */
  lemma SomeCall(g: Numbers, was: Schema, now: Schema, base: List<Field>) returns (v: Value)
    requires g.whole("0") && Flat(was) && Satisfiable(g, was, now) && NormalFields(base) && FieldsConform(g, base, was)
    requires forall k :: Lookup(base, k).Some? ==> !IsNew(was, now, k)
    ensures Normal(v) && Conforms(g, v, was) && NoNewKeys(v, was, now)
    ensures forall k :: Lookup(base, k).Some? ==> Lookup(v.fields, k) == Lookup(base, k)
    ensures forall k :: Lookup(v.fields, k).Some? <==> k in was.required || Lookup(base, k).Some?
  {
    SmallestConforms(g, was, now, was.required, base);
    v := Obj(Smallest(g, was, was.required, base));
    forall k | k in was.required ensures !IsNew(was, now, k) { assert k in Required(was); }
  }

  lemma RequiredBreaks(g: Numbers, was: Schema, now: Schema)
    requires g.whole("0") && Flat(was) && Flat(now) && Satisfiable(g, was, now) && !RequiredKnown(was, now)
    ensures !KeepsCallers(g, was, now)
  {
    var r :| r in Required(now) && Declared(Properties(now), r).None? && r !in Required(was);
    var v := SomeCall(g, was, now, Nil);
    var i :| 0 <= i < |now.required| && now.required[i] == r;
    assert Lookup(v.fields, now.required[i]).None?;
    assert !Conforms(g, v, now);
  }

  /** A name reported as newly required refuses a call the old schema accepts. */
  lemma RequiredAddedRefuses(g: Numbers, was: Schema, now: Schema, name: string)
    requires g.whole("0") && Flat(was) && Flat(now) && Satisfiable(g, was, now) && Reports(was, now, RequiredAdded(name))
    ensures !KeepsCallers(g, was, now)
  {
    ReportedIff(was, now, name);
    var v := SomeCall(g, was, now, Nil);
    var i :| 0 <= i < |now.required| && now.required[i] == name;
    assert Lookup(v.fields, now.required[i]).None?;
    assert !Conforms(g, v, now);
  }

  function Stars(n: nat): (s: string)
    ensures |s| == n
  {
    if n == 0 then "" else "*" + Stars(n - 1)
  }

  function Encodings(g: Numbers, choices: seq<Value>): (r: set<string>)
    ensures |r| <= |choices| && forall i | 0 <= i < |choices| :: g.encoded(choices[i]) in r
  {
    if choices == [] then {} else {g.encoded(choices[0])} + Encodings(g, choices[1..])
  }

  function Variants(g: Numbers, name: string, n: nat): set<string> {
    if n == 0 then {} else Variants(g, name, n - 1) + {g.encoded(Holding(name, Stars(n - 1)))}
  }

  predicate IsVariant(g: Numbers, name: string, n: nat, e: string) {
    exists k | 0 <= k < n :: e == g.encoded(Holding(name, Stars(k)))
  }

  lemma HoldingDiffers(g: Numbers, name: string, n: nat)
    requires Encodes(g)
    ensures !IsVariant(g, name, n, g.encoded(Holding(name, Stars(n))))
  {
    forall k | 0 <= k < n ensures g.encoded(Holding(name, Stars(k))) != g.encoded(Holding(name, Stars(n))) {
      assert |Stars(k)| != |Stars(n)|;
    }
  }

  lemma {:induction false} VariantsMany(g: Numbers, name: string, n: nat)
    requires Encodes(g)
    ensures |Variants(g, name, n)| == n && forall e <- Variants(g, name, n) :: IsVariant(g, name, n, e)
  {
    if n > 0 {
      VariantsMany(g, name, n - 1);
      HoldingDiffers(g, name, n - 1);
      forall e <- Variants(g, name, n - 1) ensures IsVariant(g, name, n, e) {
        var k :| 0 <= k < n - 1 && e == g.encoded(Holding(name, Stars(k)));
      }
    }
  }

  /** No list of choices holds all values of a type that holds strings. */
  lemma SomeUnlisted(g: Numbers, name: string, choices: seq<Value>) returns (v: Value)
    requires Encodes(g) && name !in {"boolean", "integer", "number"}
    ensures Normal(v) && OfType(g, v, name) && !InChoices(g, choices, v)
  {
    var n := |choices| + 1;
    VariantsMany(g, name, n);
    if Variants(g, name, n) <= Encodings(g, choices) { SubsetSize(Variants(g, name, n), Encodings(g, choices)); }
    var e :| e in Variants(g, name, n) && e !in Encodings(g, choices);
    var k :| 0 <= k < n && e == g.encoded(Holding(name, Stars(k)));
    v := Holding(name, Stars(k));
    HoldingFits(g, name, Stars(k));
  }

  lemma HoldingFits(g: Numbers, name: string, s: string)
    requires name !in {"boolean", "integer", "number"}
    ensures Normal(Holding(name, s)) && OfType(g, Holding(name, s), name)
  {
    assert Normal(Str(s));
  }

  lemma ChoiceConforms(g: Numbers, p: Schema, c: Value)
    requires FlatProperty(p) && Choices(p).Some? && c in Choices(p).value && OfType(g, c, TypeName(p))
    ensures Normal(c) && Conforms(g, c, p)
  {
    FlatConforms(g, c, p);
    var i :| 0 <= i < |Choices(p).value| && Choices(p).value[i] == c;
  }

  lemma UnlistedValue(g: Numbers, p: Schema, choices: seq<Value>) returns (v: Value)
    requires Encodes(g) && FlatProperty(p) && !Listed(g, p, choices)
    ensures Normal(v) && Conforms(g, v, p) && !InChoices(g, choices, v)
  {
    if Choices(p).Some? {
      v :| v in Choices(p).value && OfType(g, v, TypeName(p)) && !InChoices(g, choices, v);
      ChoiceConforms(g, p, v);
    } else {
      match TypeName(p) {
        case "boolean" => v := Bool(InChoices(g, choices, Bool(false)));
        case "integer" =>
          var t :| g.whole(t) && !InChoices(g, choices, Num(t));
          v := Num(t);
        case "number" =>
          var t: string :| !InChoices(g, choices, Num(t));
          v := Num(t);
        case _ => v := SomeUnlisted(g, TypeName(p), choices);
      }
      FlatConforms(g, v, p);
    }
  }

  /** A property that is not kept has a value that is refused now. */
  lemma SomeRefused(g: Numbers, p: Schema, q: Schema) returns (v: Value)
    requires Encodes(g) && FlatProperty(p) && FlatProperty(q) && !PropertyKept(g, p, q)
    ensures Normal(v) && Conforms(g, v, p) && !Conforms(g, v, q)
  {
    if Choices(q).Some? && !Listed(g, p, Choices(q).value) {
      v := UnlistedValue(g, p, Choices(q).value);
    } else if Choices(p).Some? {
      v :| v in Choices(p).value && !OfType(g, v, TypeName(q));
      ChoiceConforms(g, p, v);
    } else {
      v := Null;
      FlatConforms(g, v, p);
    }
    FlatConforms(g, v, q);
  }

  lemma PropertyBreaks(g: Numbers, was: Schema, now: Schema, name: string)
    requires Encodes(g) && g.whole("0") && Flat(was) && Flat(now) && Satisfiable(g, was, now)
    requires Declared(was.properties, name).Some? && Declared(now.properties, name).Some?
    requires !PropertyKept(g, Declared(was.properties, name).value, Declared(now.properties, name).value)
    ensures !KeepsCallers(g, was, now)
  {
    DeclaredFlat(was.properties, name);
    DeclaredFlat(now.properties, name);
    var x := SomeRefused(g, Declared(was.properties, name).value, Declared(now.properties, name).value);
    var base := Cons(Field(name, x), Nil);
    assert FieldsConform(g, base.tail, was);
    var v := SomeCall(g, was, now, base);
    assert Lookup(base, name) == Some(x);
    if Conforms(g, v, now) { LookedUpConforms(g, v.fields, now, name); }
  }

  /** When nothing breaking is reported between two flat schemas, callers are kept exactly when no
      property starts to be tested for a type its values may lack, no choices leave out a value there was,
      and no undeclared name becomes required. */
  lemma DiffSoundIff(g: Numbers, was: Schema, now: Schema)
    requires Encodes(g) && g.whole("0") && Flat(was) && Flat(now) && Satisfiable(g, was, now) && NothingBreaking(was, now)
    ensures KeepsCallers(g, was, now) <==> PropertiesKept(g, was, now) && RequiredKnown(was, now)
  {
    if PropertiesKept(g, was, now) && RequiredKnown(was, now) {
      NothingBreakingKeeps(g, was, now);
    } else if !PropertiesKept(g, was, now) {
      var name :| name in Names(Properties(now)) &&
        var p, q := Declared(Properties(was), name), Declared(Properties(now), name);
        p.Some? && q.Some? && !PropertyKept(g, p.value, q.value);
      PropertyBreaks(g, was, now, name);
    } else {
      RequiredBreaks(g, was, now);
    }
  }

  function Marked(v: Value): string {
    match v
    case Null => "n"
    case Bool(b) => if b then "t" else "f"
    case Num(_) => "0"
    case Str(s) => "s" + s
    case Arr(items) => "a" + if items.Cons? && items.head.Str? then items.head.s else ""
    case Obj(fields) => "o" + if fields.Cons? && fields.head.val.Str? then fields.head.val.s else ""
  }

  /** Some encoding is as is asked. */
  lemma SomeEncoding() returns (g: Numbers)
    ensures Encodes(g) && g.whole("0")
  {
    g := Numbers(_ => true, Marked);
    forall a, b | g.encoded(a) == g.encoded(b) ensures SameTypes(g, a, b) {
      assert Marked(a)[0] == Marked(b)[0];
    }
    forall name, a, b | g.encoded(Holding(name, a)) == g.encoded(Holding(name, b)) ensures a == b {
      assert Marked(Holding(name, a))[1..] == a && Marked(Holding(name, b))[1..] == b;
    }
  }

  /** One property of type string. */
  function OneString(name: string, choices: Option<seq<Value>>): Schema {
    Schema(One("object"), None, Cons(Property(name, Schema(One("string"), choices, Nil, [], None, None)), Nil), [], None, None)
  }

  /** A choice of values put on a property is not reported at all, though it refuses values that were
      accepted. */
  lemma ChoicesUnreported(g: Numbers, name: string, a: string, b: string)
    requires g.encoded(Str(a)) != g.encoded(Str(b))
    ensures var was, now := OneString(name, None), OneString(name, Some([Str(a)]));
      && NothingBreaking(was, now)
      && Conforms(g, Obj(Cons(Field(name, Str(b)), Nil)), was) && !Conforms(g, Obj(Cons(Field(name, Str(b)), Nil)), now)
  {
    var was, now := OneString(name, None), OneString(name, Some([Str(a)]));
    var p := Declared(was.properties, name).value;
    var q := Declared(now.properties, name).value;
    assert TypeSet(p) == TypeSet(q);
    forall c ensures Reports(was, now, c) ==> !c.Breaking() { }
    var fields := Cons(Field(name, Str(b)), Nil);
    assert FieldsConform(g, fields.tail, was);
    assert Conforms(g, Str(b), p) && !Conforms(g, Str(b), q);
  }

  /** One property of a list of types. */
  function OneOf(name: string, types: TypeDecl): Schema {
    Schema(One("object"), None, Cons(Property(name, Schema(types, None, Nil, [], None, None)), Nil), [], None, None)
  }

  /** A union of one type rewritten as that type is not reported, though only now the type is tested. */
  lemma UnionUnreported(g: Numbers, name: string, t: string)
    ensures var was, now := OneOf(name, Many(["string"])), OneOf(name, One("string"));
      && NothingBreaking(was, now)
      && Conforms(g, Obj(Cons(Field(name, Num(t)), Nil)), was) && !Conforms(g, Obj(Cons(Field(name, Num(t)), Nil)), now)
  {
    var was, now := OneOf(name, Many(["string"])), OneOf(name, One("string"));
    var p := Declared(was.properties, name).value;
    var q := Declared(now.properties, name).value;
    assert "string" in ["string"];
    assert TypeSet(p) == TypeSet(q);
    forall c ensures Reports(was, now, c) ==> !c.Breaking() { }
    var fields := Cons(Field(name, Num(t)), Nil);
    assert FieldsConform(g, fields.tail, was);
    assert Conforms(g, Num(t), p) && !Conforms(g, Num(t), q);
  }
}
