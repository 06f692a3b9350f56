/** How JavaScript treats the JSON values the provider returns when the node tests
    them for truthiness (`if (!response.id)`) and interpolates them into a URL
    template (`${fileId}`). */
module JsonText {
  import opened Wrappers
  import opened Text
  import opened OrderedMap
  import opened Types
  import opened JsNumbers

  /** `payload[key]`, `None` for `undefined`. */
  function Field(payload: Payload, key: string): Option<Json> {
    Get(payload, key)
  }

  /** JavaScript truthiness of a property value; `undefined` is falsy. */
  predicate Truthy(v: Option<Json>) {
    match v
    case None => false
    case Some(j) =>
      match j
      case Null => false
      case Bool(b) => b
      case Num(n) => n != 0
      case Str(s) => s != ""
      case Arr(_) => true
      case Obj(_) => true
  }

  /** The decimal text of an integer, with a leading `-` when negative. */
  function IntText(n: int): (r: string)
    ensures |r| >= 1
    ensures r[0] == '-' <==> n < 0
    ensures StringToNumber(r) == Int(n)
  {
    SignedText(n);
    if n < 0 then "-" + NatToString(-n) else NatToString(n)
  }

  /** `${value}` for a JSON value: arrays are joined with commas (a `null` element
      gives the empty string) and every object renders as `[object Object]`. */
  function TemplateText(j: Json): (r: string)
    ensures j.Str? ==> r == j.s
    ensures j.Num? ==> |r| >= 1 && (r[0] == '-' <==> j.n < 0)
    decreases j, 1
  {
    match j
    case Null => "null"
    case Bool(b) => if b then "true" else "false"
    case Num(n) => IntText(n)
    case Str(s) => s
    case Arr(elems) => Join(ElementTexts(j, elems), ',')
    case Obj(_) => "[object Object]"
  }

  function ElementTexts(parent: Json, elems: seq<Json>): (r: seq<string>)
    requires parent.Arr? && elems <= parent.elems
    ensures |r| == |elems|
    ensures forall i :: 0 <= i < |elems| ==>
      r[i] == if elems[i].Null? then "" else TemplateText(elems[i])
    decreases parent, 0, |elems|
  {
    if |elems| == 0 then []
    else
      assert elems[|elems| - 1] in parent.elems;
      ElementTexts(parent, elems[..|elems| - 1])
        + [if elems[|elems| - 1].Null? then "" else TemplateText(elems[|elems| - 1])]
  }

  /** A numeric JSON value interpolated into text reads back with `Number` as the
      same number. */
  lemma NumberTextRoundTrip(j: Json)
    requires j.Num?
    ensures StringToNumber(TemplateText(j)) == Int(j.n)
  {
  }

  /** The two shapes of a rendered integer read back to its value. */
  lemma SignedText(n: int)
    ensures n < 0 ==> ("-" + NatToString(-n))[0] == '-' && StringToNumber("-" + NatToString(-n)) == Int(n)
    ensures n >= 0 ==> NatToString(n)[0] != '-' && StringToNumber(NatToString(n)) == Int(n)
  {
    if n < 0 {
      var m: nat := -n;
      var t := "-" + NatToString(m);
      NegativeTrimmed(m);
      NegativeNumeral(m);
      assert StringToNumber(t) == NumeralValue(t);
    } else {
      NumberNatToString(n);
    }
  }

  lemma NegativeTrimmed(m: nat)
    ensures Trim("-" + NatToString(m)) == "-" + NatToString(m)
  {
    var digits := NatToString(m);
    var t := "-" + digits;
    assert t[0] == '-';
    assert TrimStart(t) == t;
    assert t[|t| - 1] == digits[|digits| - 1];
    assert !IsWhitespace(t[|t| - 1]);
  }

  lemma NegativeNumeral(m: nat)
    ensures NumeralValue("-" + NatToString(m)) == Int(0 - m)
  {
    var digits := NatToString(m);
    var t := "-" + digits;
    DigitsOfNat(m);
    assert t[1..] == digits;
    assert t[0] == '-';
    assert PrefixRadix(t).None?;
  }
}
