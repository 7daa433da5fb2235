/** JSON records as the codecs build and read them: literal objects, and the typed field reads of struct
    decoding, where a field of the wrong type fails the whole decode. */
module Records {
  import opened Lists
  import opened Options
  import opened Json
  import opened Canon

  // ---------------------------------------------------------------- building

  function R1(k1: string, v1: Value): (r: List<Field>)
    ensures PrintableFields(r) <==> Printable(v1)
    ensures forall key :: Lookup(r, key) == if key == k1 then Some(v1) else None
  {
    Cons(Field(k1, v1), Nil)
  }

  function R2(k1: string, v1: Value, k2: string, v2: Value): (r: List<Field>)
    ensures PrintableFields(r) <==> Printable(v1) && Printable(v2)
    ensures forall key :: Lookup(r, key) == if key == k2 then Some(v2) else if key == k1 then Some(v1) else None
  {
    Cons(Field(k1, v1), R1(k2, v2))
  }

  function R3(k1: string, v1: Value, k2: string, v2: Value, k3: string, v3: Value): (r: List<Field>)
    ensures PrintableFields(r) <==> Printable(v1) && Printable(v2) && Printable(v3)
    ensures forall key ::
      Lookup(r, key) == (
      if key == k3 then Some(v3) else if key == k2 then Some(v2) else if key == k1 then Some(v1) else None)
  {
    Cons(Field(k1, v1), R2(k2, v2, k3, v3))
  }

  function R4(k1: string, v1: Value, k2: string, v2: Value, k3: string, v3: Value, k4: string, v4: Value)
      : (r: List<Field>)
    ensures PrintableFields(r) <==> Printable(v1) && Printable(v2) && Printable(v3) && Printable(v4)
    ensures forall key ::
      Lookup(r, key) == (
      if key == k4 then Some(v4) else if key == k3 then Some(v3)
      else if key == k2 then Some(v2) else if key == k1 then Some(v1) else None)
  {
    Cons(Field(k1, v1), R3(k2, v2, k3, v3, k4, v4))
  }

  function R5(k1: string, v1: Value, k2: string, v2: Value, k3: string, v3: Value, k4: string, v4: Value,
              k5: string, v5: Value): (r: List<Field>)
    ensures PrintableFields(r) <==>
      Printable(v1) && Printable(v2) && Printable(v3) && Printable(v4) && Printable(v5)
    ensures forall key ::
      Lookup(r, key) == (
      if key == k5 then Some(v5) else if key == k4 then Some(v4) else if key == k3 then Some(v3)
      else if key == k2 then Some(v2) else if key == k1 then Some(v1) else None)
  {
    Cons(Field(k1, v1), R4(k2, v2, k3, v3, k4, v4, k5, v5))
  }

  function One(v: Value): (r: Value)
    ensures Printable(r) <==> Printable(v)
  {
    var items := Cons(v, Nil);
    assert PrintableItems(items) <==> Printable(v) && PrintableItems(items.tail);
    Arr(items)
  }

  // ---------------------------------------------------------------- integers

  function DigitChar(n: nat): char
    requires n < 10
  {
    "0123456789"[n]
  }

  function NatText(n: nat): (s: string)
    ensures s != ""
  {
    if n < 10 then [DigitChar(n)] else NatText(n / 10) + [DigitChar(n % 10)]
  }

  function IntText(n: int): string {
    if n < 0 then "-" + NatText(-n) else NatText(n)
  }

  function DigitsValue(s: string): Option<int> {
    if s == "" then Some(0)
    else
      var hi := DigitsValue(s[..|s| - 1]);
      var c := s[|s| - 1];
      if hi.None? || !IsDigit(c) then None else Some(hi.value * 10 + (c as int - '0' as int))
  }

  /** A JSON number read into an integer field; a fraction or an exponent does not fit. */
  function IntOf(t: string): Option<int> {
    if t != "" && t[0] == '-' then
      var n := DigitsValue(t[1..]);
      if n.None? || t == "-" then None
      else
        Some(-n.value)
    else
      var n := DigitsValue(t);
      if n.None? || t == "" then None else Some(n.value)
  }

  lemma {:induction false} NatTextValue(n: nat)
    ensures DigitsValue(NatText(n)) == Some(n)
    ensures NatText(n)[0] != '-' && (n > 0 ==> NatText(n)[0] != '0')
  {
    if n >= 10 {
      NatTextValue(n / 10);
      var s := NatText(n);
      assert s[..|s| - 1] == NatText(n / 10);
    } else {
      assert NatText(n)[..0] == "";
    }
  }

  lemma MinusValue(s: string)
    requires s != "" && DigitsValue(s).Some?
    ensures IntOf("-" + s) == Some(-DigitsValue(s).value)
  {
    assert ("-" + s)[1..] == s;
  }

  lemma IntTextValue(n: int)
    ensures IntOf(IntText(n)) == Some(n)
  {
    if n < 0 {
      NatTextValue(-n);
      MinusValue(NatText(-n));
    } else {
      NatTextValue(n);
    }
  }

  lemma {:induction false} DigitsRun(s: string)
    requires forall i | 0 <= i < |s| :: IsDigit(s[i])
    ensures RunNumber(s, Digits) == NumRun(s, "", Digits)
  {
    if s != "" {
      DigitsRun(s[1..]);
      assert [s[0]] + s[1..] == s;
    }
  }

  lemma {:induction false} NatTextDigits(n: nat)
    ensures forall i | 0 <= i < |NatText(n)| :: IsDigit(NatText(n)[i])
  {
    if n >= 10 { NatTextDigits(n / 10); }
  }

  lemma NatTextNumber(n: nat, st: NumState)
    requires st == Start || st == Neg
    ensures RunNumber(NatText(n), st).rest == "" && Accepting(RunNumber(NatText(n), st).last)
  {
    var s := NatText(n);
    NatTextDigits(n);
    NatTextValue(n);
    DigitsRun(s[1..]);
    if n == 0 { assert s == "0" && s[1..] == ""; }
  }

  function Int(n: int): Value {
    Num(IntText(n))
  }

  lemma MinusNumber(s: string)
    requires RunNumber(s, Neg).rest == "" && Accepting(RunNumber(s, Neg).last)
    ensures ValidNumber("-" + s)
  {
    assert ("-" + s)[1..] == s;
  }

  lemma IntPrintable(n: int)
    ensures Printable(Int(n))
  {
    if n < 0 {
      NatTextNumber(-n, Neg);
      MinusNumber(NatText(-n));
    } else {
      NatTextNumber(n, Start);
    }
  }

  // ---------------------------------------------------------------- reading

  /** The fields of a decoded object; null decodes as the empty record, anything else fails. */
  function FieldsOf(v: Value): Option<List<Field>> {
    match v
    case Null => Some(Nil)
    case Obj(fields) => Some(fields)
    case _ => None
  }

  function StrIn(fields: List<Field>, key: string): Option<string> {
    match Lookup(fields, key)
    case None => Some("")
    case Some(Null) => Some("")
    case Some(Str(s)) => Some(s)
    case Some(_) => None
  }

  function BoolIn(fields: List<Field>, key: string): Option<bool> {
    match Lookup(fields, key)
    case None => Some(false)
    case Some(Null) => Some(false)
    case Some(Bool(b)) => Some(b)
    case Some(_) => None
  }

  function IntIn(fields: List<Field>, key: string): Option<int> {
    match Lookup(fields, key)
    case None => Some(0)
    case Some(Null) => Some(0)
    case Some(Num(t)) => IntOf(t)
    case Some(_) => None
  }

  function SubIn(fields: List<Field>, key: string): Option<List<Field>> {
    match Lookup(fields, key)
    case None => Some(Nil)
    case Some(v) => FieldsOf(v)
  }

  function ListIn(fields: List<Field>, key: string): Option<List<Value>> {
    match Lookup(fields, key)
    case None => Some(Nil)
    case Some(Null) => Some(Nil)
    case Some(Arr(items)) => Some(items)
    case Some(_) => None
  }

  /** Reads every element of a list, failing if one fails. */
  function Each<T>(items: List<Value>, read: Value -> Option<T>): Option<seq<T>> {
    match items
    case Nil => Some([])
    case Cons(v, rest) =>
      var x :- read(v);
      var xs :- Each(rest, read);
      Some([x] + xs)
  }
}
