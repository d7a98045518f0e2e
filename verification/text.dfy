/** The two pieces of JavaScript string semantics the order reconciliation
    relies on: `String.prototype.toUpperCase` (restricted to ASCII letters)
    and the truthiness test behind `||` and `if (x)` on an optional string. */
module Text {
  import opened Options

  predicate IsLower(c: char) {
    'a' <= c <= 'z'
  }

  function UpperChar(c: char): (u: char)
    ensures !IsLower(u)
    ensures !IsLower(c) ==> u == c
    ensures IsLower(c) ==> u as int == c as int - 32
  {
    if IsLower(c) then (c as int - 32) as char else c
  }

  /** Upper-cases every ASCII letter and keeps every other character. */
  function ToUpper(s: string): (r: string)
    ensures |r| == |s|
    ensures forall i :: 0 <= i < |r| ==> !IsLower(r[i])
    ensures forall i :: 0 <= i < |s| && !IsLower(s[i]) ==> r[i] == s[i]
    ensures forall i :: 0 <= i < |s| && IsLower(s[i]) ==> r[i] as int == s[i] as int - 32
  {
    seq(|s|, i requires 0 <= i < |s| => UpperChar(s[i]))
  }

  /** Upper-casing an upper-cased string changes nothing. */
  lemma ToUpperIdempotent(s: string)
    ensures ToUpper(ToUpper(s)) == ToUpper(s)
  {
  }

  /** The default currency code, upper-cased, is the ISO code "EUR". */
  lemma DefaultCurrencyUpper()
    ensures ToUpper("eur") == "EUR"
  {
  }

  /** JavaScript truthiness of an optional string: absent and "" are falsy. */
  predicate Truthy(s: Option<string>) {
    s.Some? && s.value != ""
  }

  /** `a || b || null` on two optional strings. */
  function FirstTruthy(a: Option<string>, b: Option<string>): (r: Option<string>)
    ensures r.None? || Truthy(r)
    ensures r.Some? ==> r == a || r == b
    ensures Truthy(a) ==> r == a
    ensures r.None? <==> !Truthy(a) && !Truthy(b)
  {
    if Truthy(a) then a else if Truthy(b) then b else None
  }
}
