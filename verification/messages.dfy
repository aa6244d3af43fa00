/** The human-readable text each error is reported with, including the decimal
    rendering of a dish index inside a template literal. */
module Messages {
  import opened OrderTypes

  predicate IsDigit(c: char)
  {
    '0' <= c <= '9'
  }

  function DigitChar(d: nat): (c: char)
    requires d < 10
    ensures IsDigit(c)
    ensures c as int - '0' as int == d
  {
    ['0', '1', '2', '3', '4', '5', '6', '7', '8', '9'][d]
  }

  /** The decimal text JavaScript produces for a non-negative integer in `${index}`. */
  function NatToString(n: nat): (s: string)
    ensures |s| > 0
    ensures forall i :: 0 <= i < |s| ==> IsDigit(s[i])
    decreases n
  {
    if n < 10 then [DigitChar(n)] else NatToString(n / 10) + [DigitChar(n % 10)]
  }

  /** Reads a string of decimal digits back as a number. */
  function ParseDecimal(s: string): nat
    requires forall i :: 0 <= i < |s| ==> IsDigit(s[i])
  {
    if |s| == 0 then 0
    else
      assert IsDigit(s[|s| - 1]);
      ParseDecimal(s[..|s| - 1]) * 10 + (s[|s| - 1] as int - '0' as int)
  }

  /** The rendered index reads back as the index itself. */
  lemma {:induction false} ParseNatToString(n: nat)
    ensures ParseDecimal(NatToString(n)) == n
    decreases n
  {
    if n >= 10 {
      var s := NatToString(n);
      assert s[..|s| - 1] == NatToString(n / 10);
      ParseNatToString(n / 10);
    }
  }

  lemma NatToStringInjective(a: nat, b: nat)
    requires NatToString(a) == NatToString(b)
    ensures a == b
  {
    ParseNatToString(a);
    ParseNatToString(b);
  }

  /** `m` is `prefix`, then `x`, then `suffix`, each found again by position. */
  predicate Frames(m: string, prefix: string, x: string, suffix: string)
  {
    && |m| == |prefix| + |x| + |suffix|
    && m[..|prefix|] == prefix
    && m[|prefix|..|prefix| + |x|] == x
    && m[|prefix| + |x|..] == suffix
  }

  function Framed(prefix: string, x: string, suffix: string): (m: string)
    ensures Frames(m, prefix, x, suffix)
  {
    assert (prefix + x + suffix)[..|prefix|] == prefix;
    prefix + x + suffix
  }

  const NotFoundPrefix: string := "Order does not exist: "
  const MissingPrefix: string := "Order must include a "
  const QuantityPrefix: string := "Dish "
  const QuantitySuffix: string := " must have a quantity that is an integer greater than 0"
  const MismatchPrefix: string := "Order id does not match route id. Order: "
  const RouteLabel: string := ", Route: "
  const NoDishesText: string := "Order must include at least one dish"
  const BadStatusText: string :=
    "Order must have a status of pending, preparing, out-for-delivery, delivered"
  const NotPendingText: string := "An order cannot be deleted unless it is pending."

  /** The id-mismatch text: the stored id after "Order: ", then the payload id
      after ", Route: " at the very end. */
  function MismatchMessage(orderId: string, given: string): (m: string)
    ensures Frames(m, MismatchPrefix, orderId, RouteLabel + given)
    ensures |m| >= |given| && m[|m| - |given|..] == given
  {
    var m := Framed(MismatchPrefix, orderId, RouteLabel + given);
    assert m[|m| - |given|..] == (RouteLabel + given)[|RouteLabel|..];
    m
  }

  /** The message `next(err)` carries for each error. Every message that is
      about something names it: the 404 quotes the route id between the fixed
      text and the final period, a missing-field message ends with the property
      name, a quantity message carries the dish index right after "Dish ", and
      an id mismatch reports the stored id after "Order: " and the payload id
      at the very end, after ", Route: ". */
  function Message(e: Error): (m: string)
    ensures e.NotFound? ==> Frames(m, NotFoundPrefix, e.orderId, ".")
    ensures e.MissingField? ==> Frames(m, MissingPrefix, FieldName(e.field), "")
    ensures e.BadQuantity? ==> Frames(m, QuantityPrefix, NatToString(e.index), QuantitySuffix)
    ensures e.IdMismatch? ==>
      && Frames(m, MismatchPrefix, e.orderId, RouteLabel + e.given)
      && |m| >= |e.given| && m[|m| - |e.given|..] == e.given
  {
    match e
    case NotFound(orderId) => Framed(NotFoundPrefix, orderId, ".")
    case MissingField(f) => Framed(MissingPrefix, FieldName(f), "")
    case NoDishes => NoDishesText
    case BadQuantity(i) => Framed(QuantityPrefix, NatToString(i), QuantitySuffix)
    case BadStatus => BadStatusText
    case IdMismatch(orderId, given) => MismatchMessage(orderId, given)
    case NotPending => NotPendingText
    case Thrown => "TypeError"
  }

  /** Two quantity messages are equal only when they name the same dish index,
      so the message identifies the offending dish. */
  lemma BadQuantityMessageInjective(i: nat, j: nat)
    requires Message(BadQuantity(i)) == Message(BadQuantity(j))
    ensures i == j
  {
    NatToStringInjective(i, j);
  }
}
