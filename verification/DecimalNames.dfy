/** Reading a descriptor number off a directory entry's name. */
module DecimalNames {

  const G_MAXINT := 0x7fff_ffff

  newtype gint = x: int | -0x8000_0000 <= x <= 0x7fff_ffff

  predicate IsDigit(c: char) { '0' <= c <= '9' }

  predicate IsNumeral(s: string) { s != [] && forall c :: c in s ==> IsDigit(c) }

  function Digit(c: char): nat
    requires IsDigit(c)
  {
    c as int - '0' as int
  }

  function Value(s: string): nat
    requires forall c :: c in s ==> IsDigit(c)
  {
    if s == [] then 0 else 10 * Value(s[..|s| - 1]) + Digit(s[|s| - 1])
  }

  /** A numeral is worth at least any of its prefixes. */
  lemma {:induction false} PrefixValue(s: string, n: nat)
    requires n <= |s| && forall c :: c in s ==> IsDigit(c)
    ensures Value(s[..n]) <= Value(s)
  {
    if n < |s| {
      PrefixValue(s[..|s| - 1], n);
      assert s[..|s| - 1][..n] == s[..n];
    } else {
      assert s[..n] == s;
    }
  }

  /** A descriptor's name as the kernel writes it: in decimal, no leading zero. */
  function NameOf(n: nat): string {
    (if n < 10 then [] else NameOf(n / 10)) + [('0' as int + n % 10) as char]
  }

  /** Reading gives back what was written. */
  lemma {:induction false} ReadsBack(n: nat)
    ensures IsNumeral(NameOf(n)) && Value(NameOf(n)) == n
  {
    var front, last := if n < 10 then [] else NameOf(n / 10), ('0' as int + n % 10) as char;
    assert NameOf(n) == front + [last] && (front + [last])[..|front|] == front;
    assert Digit(last) == n % 10;
    if n >= 10 {
      ReadsBack(n / 10);
    }
  }

  /** filename_to_fd, in C's 32-bit int arithmetic: the type gint
      holds every intermediate value. */
  method FilenameToFd(p: string) returns (fd: gint)
    ensures fd as int == if IsNumeral(p) && Value(p) <= G_MAXINT then Value(p) else -1
  {
    var cutoff: gint, cutlim: gint := 0x7fff_ffff / 10, 0x7fff_ffff % 10;
    if p == [] {
      return -1;
    }
    fd := 0;
    var i := 0;
    while i < |p|
      invariant 0 <= i <= |p| && 0 <= fd
      invariant forall c :: c in p[..i] ==> IsDigit(c)
      invariant fd as int == Value(p[..i])
    {
      assert p[..i + 1][..i] == p[..i];
      if !IsDigit(p[i]) {
        assert p[i] in p;
        return -1;
      }
      var c := Digit(p[i]) as gint;
      if fd > cutoff || (fd == cutoff && c > cutlim) {
        if IsNumeral(p) {
          PrefixValue(p, i + 1);
        }
        return -1;
      }
      fd := fd * 10 + c;
      i := i + 1;
    }
    assert p[..i] == p;
  }
}
