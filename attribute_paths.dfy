/**
 * Attribute path keys of the per-node attribute cache:
 * "<endpoint>/30/0" is the Binding list of one endpoint and "0/31/0" the
 * node-global ACL.
 */
module AttributePaths {

  /** The decimal digit character for `d`. */
  function Digit(d: nat): (c: char)
    requires d < 10
    ensures '0' <= c <= '9'
  {
    ('0' as int + d) as char
  }

  /**
   * A non-negative number as JavaScript prints it in a template string.
   * This holds below 10^21, where JavaScript switches to exponent form;
   * endpoint ids are at most 0xFFFF.
   */
  function DecimalString(n: nat): (s: string)
    ensures 1 <= |s|
    ensures n < 10 <==> |s| == 1
    ensures forall k :: 0 <= k < |s| ==> '0' <= s[k] <= '9'
    ensures s[0] == '0' <==> n == 0
  {
    if n < 10 then [Digit(n)] else DecimalString(n / 10) + [Digit(n % 10)]
  }

  /** The number a digit character stands for. */
  function DigitValue(c: char): (d: nat)
    requires '0' <= c <= '9'
    ensures d < 10
  {
    c as int - '0' as int
  }

  /** Reads a string of decimal digits back as a number, most significant digit first. */
  function DigitsValue(s: string): nat
    requires forall k :: 0 <= k < |s| ==> '0' <= s[k] <= '9'
  {
    if s == [] then 0 else 10 * DigitsValue(s[..|s| - 1]) + DigitValue(s[|s| - 1])
  }

  /** The printed string is the decimal numeral of `n`: reading it back gives `n`. */
  lemma {:induction false} DecimalStringValue(n: nat)
    ensures DigitsValue(DecimalString(n)) == n
  {
    var s := DecimalString(n);
    if n < 10 {
      assert s[..0] == [];
    } else {
      assert s[..|s| - 1] == DecimalString(n / 10);
      DecimalStringValue(n / 10);
    }
  }

  /** Distinct numbers print differently. */
  lemma {:induction false} DecimalStringInjective(a: nat, b: nat)
    requires DecimalString(a) == DecimalString(b)
    ensures a == b
  {
    if 10 <= a && 10 <= b {
      var sa, sb := DecimalString(a), DecimalString(b);
      assert sa[|sa| - 1] == Digit(a % 10) && sb[|sb| - 1] == Digit(b % 10);
      assert DecimalString(a / 10) == sa[..|sa| - 1] == sb[..|sb| - 1] == DecimalString(b / 10);
      DecimalStringInjective(a / 10, b / 10);
    }
  }

  /** The node-global ACL attribute (cluster 31, attribute 0, endpoint 0). */
  const AclPath: string := "0/31/0"

  /**
   * The Binding attribute of `endpoint` (cluster 30, attribute 0): the
   * endpoint's decimal numeral, without leading zeros, then "/30/0".
   */
  function BindingPath(endpoint: nat): (p: string)
    ensures |p| > 5 && p[|p| - 5..] == "/30/0"
    ensures forall k :: 0 <= k < |p| - 5 ==> '0' <= p[k] <= '9'
    ensures DigitsValue(p[..|p| - 5]) == endpoint
    ensures p[0] == '0' ==> |p| == 6
  {
    DecimalStringValue(endpoint);
    var digits := DecimalString(endpoint);
    assert (digits + "/30/0")[..|digits|] == digits;
    digits + "/30/0"
  }

  /** No Binding path is the ACL path, so a Binding cache update never touches the ACL. */
  lemma BindingPathIsNotAclPath(endpoint: nat)
    ensures BindingPath(endpoint) != AclPath
  {
    var p := BindingPath(endpoint);
    assert p[|p| - 3] == '0';
    if |p| == |AclPath| {
      assert AclPath[|p| - 3] == '1';
    }
  }

  /** Each endpoint has its own Binding path. */
  lemma BindingPathInjective(e1: nat, e2: nat)
    requires BindingPath(e1) == BindingPath(e2)
    ensures e1 == e2
  {
    var d1, d2 := DecimalString(e1), DecimalString(e2);
    assert |d1| == |d2|;
    assert d1 == BindingPath(e1)[..|d1|] == BindingPath(e2)[..|d2|] == d2;
    DecimalStringInjective(e1, e2);
  }
}
