/**
 * The host-name shapes that the ping and TCP validators test with regular
 * expressions, stated label by label on the dot-separated parts of the host.
 */
module HostNames {
  import opened Text

  predicate IsAsciiLetter(c: char) { 'a' <= c <= 'z' || 'A' <= c <= 'Z' }
  predicate IsAsciiDigit(c: char) { '0' <= c <= '9' }
  predicate IsAlnum(c: char) { IsAsciiLetter(c) || IsAsciiDigit(c) }

  /** One DNS label: `[a-zA-Z0-9](?:[a-zA-Z0-9-]{0,61}[a-zA-Z0-9])?`, so 1 to 63
      characters, letters, digits and inner hyphens. */
  predicate IsLabel(l: string) {
    && 1 <= |l| <= 63
    && IsAlnum(l[0]) && IsAlnum(l[|l| - 1])
    && forall i :: 0 < i < |l| - 1 ==> IsAlnum(l[i]) || l[i] == '-'
  }

  /** `(?:[0-9]{1,3}\.){3}[0-9]{1,3}`: four dot-separated groups of one to three
      digits; no check that a group is at most 255. */
  predicate IsIpv4Shape(h: string) {
    var parts := Split(h, '.');
    |parts| == 4 && forall i :: 0 <= i < 4 ==> IsDigitGroup(parts[i])
  }

  predicate IsDigitGroup(g: string) {
    1 <= |g| <= 3 && forall i :: 0 <= i < |g| ==> IsAsciiDigit(g[i])
  }

  /** `(?:L\.)+[a-zA-Z]{2,}`: at least one label, each followed by a dot, then a
      final part of two or more letters. */
  predicate IsDottedHostname(h: string) {
    var parts := Split(h, '.');
    && |parts| >= 2
    && (forall i :: 0 <= i < |parts| - 1 ==> IsLabel(parts[i]))
    && IsTopLevelPart(parts[|parts| - 1])
  }

  /** `[a-zA-Z]{2,}`. */
  predicate IsTopLevelPart(t: string) {
    |t| >= 2 && forall j :: 0 <= j < |t| ==> IsAsciiLetter(t[j])
  }

  /** `(?:L\.)*L`: one or more labels joined by dots. */
  predicate IsLabelSequence(h: string) {
    var parts := Split(h, '.');
    forall i :: 0 <= i < |parts| ==> IsLabel(parts[i])
  }

  /** Every IPv4-shaped host is also a label sequence, so in the TCP validator the
      second alternative of the pattern never accepts anything the first rejects. */
  lemma Ipv4ShapeIsLabelSequence(h: string)
    requires IsIpv4Shape(h)
    ensures IsLabelSequence(h)
  {
    var parts := Split(h, '.');
    forall i | 0 <= i < |parts| ensures IsLabel(parts[i]) {
      assert IsDigitGroup(parts[i]);
    }
  }

  /** A host with no dot splits into one part, so it is never a dotted host name
      or IPv4-shaped. */
  lemma SingleLabelRejected(h: string)
    requires '.' !in h
    ensures !IsDottedHostname(h) && !IsIpv4Shape(h)
  {
    SplitNoSeparator(h, '.');
  }

  /** Four groups of one to three digits joined by dots are IPv4-shaped, whatever
      their values. */
  lemma DigitGroupsAreIpv4Shape(a: string, b: string, c: string, d: string)
    requires IsDigitGroup(a) && IsDigitGroup(b) && IsDigitGroup(c) && IsDigitGroup(d)
    ensures IsIpv4Shape(a + "." + b + "." + c + "." + d)
  {
    assert '.' !in a && '.' !in b && '.' !in c && '.' !in d by {
      assert forall g :: IsDigitGroup(g) ==> '.' !in g;
    }
    var cd := c + ['.'] + d;
    SplitPair(c, d, '.');
    var bcd := b + ['.'] + cd;
    SplitCons(b, cd, '.');
    var abcd := a + ['.'] + bcd;
    SplitCons(a, bcd, '.');
    assert Split(abcd, '.') == [a, b, c, d];
    assert a + "." + b + "." + c + "." + d == abcd;
  }
}
