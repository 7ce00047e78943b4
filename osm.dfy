/** Shared vocabulary of the route analysis: identifiers, tag maps, way
    directions, and the string tests the PHP code applies to tag values
    (strstr, substr(..., -3), trim, is_numeric). */
module Osm {

  type NodeId = string
  type WayId = string
  type Tags = map<string, string>

  datatype Option<T> = None | Some(value: T)

  /** PHP's null for an unset first_node / last_node entry. Real OSM
      identifiers are never empty, so the empty string stands for null,
      and PHP's `null == null` becomes `"" == ""`. */
  const NullRef: string := ""

  /** A node as the parser leaves it: its coordinates and its other tags. */
  datatype Node = Node(lat: real, lon: real, tags: Tags)

  /** The direction in which the route traverses a way. */
  datatype Direction = Forward | Backward | Unknown

  /** Member type of a stop reference: a node ("n"), a way ("w"), or other ("r"). */
  datatype MemberType = NodeMember | WayMember | OtherMember

  function Min(a: real, b: real): (r: real)
    ensures r <= a && r <= b && (r == a || r == b)
  {
    if a <= b then a else b
  }

  function Max(a: real, b: real): (r: real)
    ensures r >= a && r >= b && (r == a || r == b)
  {
    if a >= b then a else b
  }

  /** `isset($tags[key]) && $tags[key] == value` */
  predicate HasTag(tags: Tags, key: string, value: string) {
    key in tags && tags[key] == value
  }

  /** `isset($tags[key]) ? $tags[key] : default` */
  function TagOr(tags: Tags, key: string, default: string): string {
    if key in tags then tags[key] else default
  }

  predicate IsPrefix(p: string, s: string) {
    |p| <= |s| && s[..|p|] == p
  }

  /** `strstr(s, t)` is truthy: t occurs somewhere in s. */
  predicate Contains(s: string, t: string)
    decreases |s|
  {
    IsPrefix(t, s) || (|s| > 0 && Contains(s[1..], t))
  }

  /** t occurs in s at position i. */
  predicate OccursAt(s: string, t: string, i: int) {
    0 <= i <= |s| - |t| && s[i..i + |t|] == t
  }

  /** Contains agrees with "t occurs at some position of s". */
  lemma ContainsIffOccurs(s: string, t: string)
    ensures Contains(s, t) <==> exists i :: OccursAt(s, t, i)
  {
    if Contains(s, t) {
      var i := ContainsOccurs(s, t);
    } else {
      forall i | OccursAt(s, t, i) ensures false {
        OccursContains(s, t, i);
      }
    }
  }

  /** Where Contains holds, t occurs at some position i. */
  lemma {:induction false} ContainsOccurs(s: string, t: string) returns (i: int)
    requires Contains(s, t)
    ensures OccursAt(s, t, i)
    decreases |s|
  {
    if IsPrefix(t, s) {
      i := 0;
      assert s[0..0 + |t|] == s[..|t|];
    } else {
      var k := ContainsOccurs(s[1..], t);
      assert s[k + 1..k + 1 + |t|] == s[1..][k..k + |t|];
      i := k + 1;
    }
  }

  /** An occurrence at position i makes Contains hold. */
  lemma {:induction false} OccursContains(s: string, t: string, i: int)
    requires OccursAt(s, t, i)
    ensures Contains(s, t)
    decreases i
  {
    if i == 0 {
      assert s[..|t|] == s[0..0 + |t|];
    } else {
      assert s[1..][i - 1..i - 1 + |t|] == s[i..i + |t|];
      OccursContains(s[1..], t, i - 1);
    }
  }

  /** `substr(s, -n)`: the last n characters, or all of s when it is shorter. */
  function Tail(s: string, n: nat): (r: string)
    ensures |r| == if |s| >= n then n else |s|
  {
    if |s| >= n then s[|s| - n..] else s
  }

  /** `substr(s, -3) == "mph"`. */
  predicate EndsWithMph(s: string) {
    Tail(s, 3) == "mph"
  }

  /** The characters PHP's trim() strips by default. */
  predicate IsTrimmed(c: char) {
    c == ' ' || c == '\t' || c == '\n' || c == '\r' || c == '\0' || c == '\U{B}'
  }

  function TrimLeft(s: string): (r: string)
    ensures |r| <= |s| && r == s[|s| - |r|..]
    ensures r == [] || !IsTrimmed(r[0])
    ensures forall k :: 0 <= k < |s| - |r| ==> IsTrimmed(s[k])
  {
    if |s| > 0 && IsTrimmed(s[0]) then TrimLeft(s[1..]) else s
  }

  function TrimRight(s: string): (r: string)
    ensures |r| <= |s| && r == s[..|r|]
    ensures r == [] || !IsTrimmed(r[|r| - 1])
    ensures forall k :: |r| <= k < |s| ==> IsTrimmed(s[k])
  {
    if |s| > 0 && IsTrimmed(s[|s| - 1]) then TrimRight(s[..|s| - 1]) else s
  }

  /** PHP's trim(): strip both ends. */
  function Trim(s: string): (r: string)
    ensures r == [] || (!IsTrimmed(r[0]) && !IsTrimmed(r[|r| - 1]))
  {
    TrimRight(TrimLeft(s))
  }

  /** trim() removes exactly the blanks at both ends: the result is a slice
      of s, and everything cut off on either side is a trimmed character. */
  lemma TrimIsSlice(s: string)
    ensures exists i, j :: 0 <= i <= j <= |s| && Trim(s) == s[i..j] &&
              (forall k :: 0 <= k < i ==> IsTrimmed(s[k])) && (forall k :: j <= k < |s| ==> IsTrimmed(s[k]))
  {
    var l := TrimLeft(s);
    var i := |s| - |l|;
    var r := TrimRight(l);
    assert r == s[i..i + |r|];
    assert forall k :: i + |r| <= k < |s| ==> s[k] == l[k - i];
  }

  predicate IsDigit(c: char) {
    '0' <= c <= '9'
  }

  /** The whitespace is_numeric skips before a number. */
  predicate IsLeadingSpace(c: char) {
    c == ' ' || c == '\t' || c == '\n' || c == '\r' || c == '\U{B}' || c == '\U{C}'
  }

  function DropSpace(s: string): (r: string)
    ensures |r| <= |s| && r == s[|s| - |r|..]
    ensures r == [] || !IsLeadingSpace(r[0])
  {
    if |s| > 0 && IsLeadingSpace(s[0]) then DropSpace(s[1..]) else s
  }

  function DropSign(s: string): (r: string)
    ensures |r| <= |s|
  {
    if |s| > 0 && (s[0] == '+' || s[0] == '-') then s[1..] else s
  }

  /** Length of the run of digits that starts s. */
  function DigitRun(s: string): (n: nat)
    ensures n <= |s|
    ensures forall i :: 0 <= i < n ==> IsDigit(s[i])
    ensures n < |s| ==> !IsDigit(s[n])
  {
    if |s| > 0 && IsDigit(s[0]) then 1 + DigitRun(s[1..]) else 0
  }

  /** An optional exponent `[eE][+-]?[0-9]+` and then the end of the string. */
  predicate ExponentTail(s: string) {
    s == [] ||
    ((s[0] == 'e' || s[0] == 'E') &&
     var digits := DropSign(s[1..]);
     DigitRun(digits) > 0 && DigitRun(digits) == |digits|)
  }

  /** PHP 7's is_numeric on a string: leading whitespace, an optional sign,
      digits with an optional fraction (or a fraction alone), an optional
      exponent, and nothing after it. */
  predicate IsNumeric(s: string) {
    IsUnsigned(DropSign(DropSpace(s)))
  }

  /** What is left after the whitespace and the sign. */
  predicate IsUnsigned(u: string) {
    var whole := DigitRun(u);
    var rest := u[whole..];
    if |rest| > 0 && rest[0] == '.' then
      var frac := DigitRun(rest[1..]);
      (whole > 0 || frac > 0) && ExponentTail(rest[1..][frac..])
    else
      whole > 0 && ExponentTail(rest)
  }

  lemma NumericAccepts()
    ensures IsNumeric("120")
  {
    assert DropSpace("120") == "120";
    assert DropSign("120") == "120";
    assert DigitRun("0") == 1;
    assert DigitRun("20") == 2;
    assert DigitRun("120") == 3;
    assert "120"[3..] == [];
  }

  lemma NumericRejectsWord()
    ensures !IsNumeric("none")
  {
    assert DropSpace("none") == "none";
    assert DropSign("none") == "none";
    assert DigitRun("none") == 0;
  }

  lemma NumericRejectsTrailingSpace()
    ensures !IsNumeric("80 ")
  {
    assert DropSpace("80 ") == "80 ";
    assert DropSign("80 ") == "80 ";
    assert DigitRun(" ") == 0;
    assert DigitRun("0 ") == 1;
    assert DigitRun("80 ") == 2;
    assert "80 "[2..] == " ";
  }

  /** A number accepted by is_numeric is not blank and ends in a digit or
      in the decimal point of a fraction-less number such as "5.": in
      particular no trailing whitespace is accepted. */
  lemma {:induction false} NumericEnd(s: string)
    requires IsNumeric(s)
    ensures |s| > 0 && (IsDigit(s[|s| - 1]) || s[|s| - 1] == '.')
    ensures !IsTrimmed(s[|s| - 1]) && !IsLeadingSpace(s[|s| - 1])
  {
    var v := DropSpace(s);
    var u := DropSign(v);
    UnsignedEnd(u);
    assert u == v[|v| - |u|..];
    assert u[|u| - 1] == v[|v| - 1];
    assert v[|v| - 1] == s[|s| - 1];
  }

  lemma {:induction false} UnsignedEnd(u: string)
    requires IsUnsigned(u)
    ensures |u| > 0 && (IsDigit(u[|u| - 1]) || u[|u| - 1] == '.')
  {
    var whole := DigitRun(u);
    var rest := u[whole..];
    if |rest| > 0 && rest[0] == '.' {
      var frac := DigitRun(rest[1..]);
      var tail := rest[1..][frac..];
      if tail != [] {
        ExponentEnd(tail);
        assert u[|u| - 1] == tail[|tail| - 1];
      } else if frac > 0 {
        assert u[|u| - 1] == rest[1..][frac - 1];
      } else {
        assert rest == ['.'];
      }
    } else if rest != [] {
      ExponentEnd(rest);
      assert u[|u| - 1] == rest[|rest| - 1];
    } else {
      assert u[|u| - 1] == u[whole - 1];
    }
  }

  lemma ExponentEnd(t: string)
    requires t != [] && ExponentTail(t)
    ensures IsDigit(t[|t| - 1])
  {
    var digits := DropSign(t[1..]);
    assert IsDigit(digits[|digits| - 1]);
    assert digits == t[1..] || digits == t[2..];
  }

  /** A number accepted by is_numeric contains a digit. */
  lemma {:induction false} NumericHasDigit(s: string)
    requires IsNumeric(s)
    ensures exists i :: 0 <= i < |s| && IsDigit(s[i])
  {
    var u := DropSign(DropSpace(s));
    var whole := DigitRun(u);
    var rest := u[whole..];
    if whole > 0 {
      assert IsDigit(s[|s| - |u|]);
    } else {
      assert rest == u && rest[0] == '.' && DigitRun(rest[1..]) > 0;
      assert IsDigit(s[|s| - |u| + 1]);
    }
  }

  /** is_numeric skips leading whitespace. */
  lemma LeadingSpaceSkipped(c: char, s: string)
    requires IsLeadingSpace(c)
    ensures IsNumeric([c] + s) <==> IsNumeric(s)
  {
    assert ([c] + s)[1..] == s;
  }

  lemma {:induction false} DigitRunAll(s: string)
    requires forall i :: 0 <= i < |s| ==> IsDigit(s[i])
    ensures DigitRun(s) == |s|
  {
    if |s| > 0 {
      DigitRunAll(s[1..]);
    }
  }

  /** A non-empty string of digits is numeric. */
  lemma DigitsNumeric(s: string)
    requires |s| > 0 && forall i :: 0 <= i < |s| ==> IsDigit(s[i])
    ensures IsNumeric(s)
  {
    DigitRunAll(s);
    assert s[|s|..] == [];
  }

  /** A sign is accepted, so a negative limit passes the check. */
  lemma NumericAcceptsNegative()
    ensures IsNumeric("-20")
  {
    assert DropSpace("-20") == "-20";
    assert DropSign("-20") == "20";
    assert DigitRun("0") == 1;
    assert DigitRun("20") == 2;
    assert "20"[2..] == [];
    assert IsUnsigned("20");
  }
}
