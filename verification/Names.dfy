/** File names on the boot partition (internal/updatecore/staging.go, versions.go,
    bootloader.go): stored kernels, their versions and flavors, and path parts. */
module Names {
  import opened Wrappers

  predicate IsDigit(c: char) {
    '0' <= c <= '9'
  }

  predicate IsFlavorChar(c: char) {
    IsDigit(c) || 'a' <= c <= 'z' || 'A' <= c <= 'Z' || c == '_' || c == '-'
  }

  predicate Digits(s: string) {
    s != "" && forall i :: 0 <= i < |s| ==> IsDigit(s[i])
  }

  predicate FlavorName(s: string) {
    s != "" && forall i :: 0 <= i < |s| ==> IsFlavorChar(s[i])
  }

  const PREFIX := "simplek8s."
  const SUFFIX := ".efi"

  /** `kernelStoredName` */
  function StoredName(ts: string, flavor: string): string {
    PREFIX + ts + "." + flavor + SUFFIX
  }

  /** Spelled out, for one kernel. */
  lemma SpelledOut()
    ensures StoredName("7", "rpi") == "simplek8s.7.rpi.efi"
    ensures KernelPath("k", StoredName("7", "rpi")) == "/k/simplek8s.7.rpi.efi"
  {
    assert StoredName("7", "rpi") == "simplek8s.7.rpi.efi";
  }

  function IndexOf(s: string, c: char): (i: nat)
    ensures i <= |s| && (i < |s| ==> s[i] == c) && forall j :: 0 <= j < i ==> s[j] != c
  {
    if s == "" || s[0] == c then 0 else 1 + IndexOf(s[1..], c)
  }

  /** `ParseStoredKernel`: simplek8s.<digits>.<flavor>.efi */
  function ParseStored(name: string): Option<(string, string)> {
    if |name| < |PREFIX| + |SUFFIX| || name[..|PREFIX|] != PREFIX || name[|name| - |SUFFIX|..] != SUFFIX then None
    else
      var middle := name[|PREFIX|..|name| - |SUFFIX|];
      var dot := IndexOf(middle, '.');
      if dot < |middle| && Digits(middle[..dot]) && FlavorName(middle[dot + 1..])
      then Some((middle[..dot], middle[dot + 1..])) else None
  }

  /** Writing and reading a stored name are inverse to each other. */
  lemma StoredNameRoundTrip(ts: string, flavor: string)
    requires Digits(ts) && FlavorName(flavor)
    ensures ParseStored(StoredName(ts, flavor)) == Some((ts, flavor))
  {
    var name := StoredName(ts, flavor);
    var middle := name[|PREFIX|..|name| - |SUFFIX|];
    assert middle == ts + "." + flavor;
    assert name[..|PREFIX|] == PREFIX && name[|name| - |SUFFIX|..] == SUFFIX;
    var dot := IndexOf(middle, '.');
    assert middle[|ts|] == '.';
    assert dot == |ts| by {
      assert forall i :: 0 <= i < |ts| ==> middle[i] == ts[i] && IsDigit(ts[i]);
    }
    assert middle[..dot] == ts && middle[dot + 1..] == flavor;
  }

  lemma ParsedNameIsStored(name: string)
    ensures var p := ParseStored(name);
            p.Some? ==> name == StoredName(p.value.0, p.value.1) && Digits(p.value.0) && FlavorName(p.value.1)
  {
    var p := ParseStored(name);
    if p.Some? {
      var middle := name[|PREFIX|..|name| - |SUFFIX|];
      var dot := IndexOf(middle, '.');
      assert name == name[..|PREFIX|] + middle + name[|name| - |SUFFIX|..];
      assert middle == middle[..dot] + "." + middle[dot + 1..];
    }
  }

  /* ---- Numbers --------------------------------------------------------------------------- */

  function DigitsValue(s: string): nat
    requires forall i :: 0 <= i < |s| ==> IsDigit(s[i])
  {
    if s == "" then 0
    else
      assert IsDigit(s[|s| - 1]);
      DigitsValue(s[..|s| - 1]) * 10 + (s[|s| - 1] as int - '0' as int)
  }

  const MAX_INT64 := 0x7fff_ffff_ffff_ffff

  /** `strconv.ParseInt(s, 10, 64)` on a version, which has no sign. */
  function VersionNumber(s: string): Option<nat> {
    if Digits(s) && DigitsValue(s) <= MAX_INT64 then Some(DigitsValue(s)) else None
  }

  /** `NewerTS` */
  predicate Newer(a: string, b: string) {
    VersionNumber(a).Some? && VersionNumber(b).Some? && VersionNumber(b).value < VersionNumber(a).value
  }

  function Pow10(n: nat): nat {
    if n == 0 then 1 else 10 * Pow10(n - 1)
  }

  predicate AllDigits(s: string) {
    forall i :: 0 <= i < |s| ==> IsDigit(s[i])
  }

  lemma {:induction false} DigitsBound(s: string)
    requires AllDigits(s)
    ensures DigitsValue(s) < Pow10(|s|)
  {
    if s != "" {
      assert IsDigit(s[|s| - 1]);
      DigitsBound(s[..|s| - 1]);
    }
  }

  lemma OneMoreDigit(s: string, c: char)
    requires AllDigits(s) && IsDigit(c)
    ensures AllDigits(s + [c]) && DigitsValue(s + [c]) == DigitsValue(s) * 10 + (c as int - '0' as int)
  {
    assert (s + [c])[..|s|] == s;
  }

  lemma JoinStep(x: nat, p: nat, v: nat, d: nat)
    ensures (x * p + v) * 10 + d == x * (10 * p) + (v * 10 + d)
  {
  }

  lemma {:induction false} DigitsJoin(a: string, b: string)
    requires AllDigits(a) && AllDigits(b)
    ensures AllDigits(a + b) && DigitsValue(a + b) == DigitsValue(a) * Pow10(|b|) + DigitsValue(b)
  {
    if b == "" {
      assert a + b == a;
    } else {
      var front, c := b[..|b| - 1], b[|b| - 1];
      DigitsJoin(a, front);
      OneMoreDigit(front, c);
      OneMoreDigit(a + front, c);
      assert front + [c] == b && a + front + [c] == a + b;
      JoinStep(DigitsValue(a), Pow10(|front|), DigitsValue(front), c as int - '0' as int);
    }
  }

  /** Versions of the same width compare as text: the first digit that differs decides. */
  lemma NewerByDigit(same: string, c: char, d: char, s: string, t: string)
    requires AllDigits(same) && IsDigit(c) && IsDigit(d) && AllDigits(s) && AllDigits(t) && |s| == |t|
    requires |same| + 1 + |s| <= 18 && d < c
    ensures Newer(same + [c] + s, same + [d] + t) && !Newer(same + [d] + t, same + [c] + s)
  {
    var a, b := same + [c], same + [d];
    DigitsJoin(same, [c]);
    DigitsJoin(same, [d]);
    assert [c][..0] == "" && [d][..0] == "";
    DigitsJoin(a, s);
    DigitsJoin(b, t);
    DigitsBound(s);
    DigitsBound(t);
    var p := Pow10(|s|);
    assert DigitsValue(a) >= DigitsValue(b) + 1;
    MoreTimes(DigitsValue(a), DigitsValue(b), p);
    DigitsBound(a + s);
    DigitsBound(b + t);
    Pow10Small(|a + s|);
  }

  lemma MoreTimes(a: nat, b: nat, p: nat)
    requires a >= b + 1
    ensures a * p >= b * p + p
  {
    assert (a - b - 1) * p >= 0;
    assert a * p == b * p + p + (a - b - 1) * p;
  }

  lemma {:induction false} Pow10Grows(m: nat, n: nat)
    requires m <= n
    ensures 0 < Pow10(m) <= Pow10(n)
    decreases n
  {
    if n > 0 {
      if m < n { Pow10Grows(m, n - 1); } else { Pow10Grows(m - 1, n - 1); }
    }
  }

  lemma Pow10Thousand(n: nat)
    ensures Pow10(n + 3) == 1000 * Pow10(n)
  {
    assert Pow10(n + 1) == 10 * Pow10(n);
    assert Pow10(n + 2) == 10 * Pow10(n + 1);
  }

  lemma Pow10Small(n: nat)
    requires n <= 18
    ensures Pow10(n) <= MAX_INT64
  {
    Pow10Grows(n, 18);
    Pow10Thousand(0);
    Pow10Thousand(3);
    Pow10Thousand(6);
    Pow10Thousand(9);
    Pow10Thousand(12);
    Pow10Thousand(15);
  }

  lemma FirstDigitWeighs(a: string)
    requires Digits(a) && a[0] != '0'
    ensures DigitsValue(a) >= Pow10(|a| - 1)
  {
    var head, tail := [a[0]], a[1..];
    assert head + tail == a && IsDigit(a[0]);
    OneMoreDigit("", a[0]);
    assert "" + head == head;
    DigitsJoin(head, tail);
    MoreTimes(DigitsValue(head), 0, Pow10(|tail|));
  }

  /** A longer version is newer, when it does not start with a zero. */
  lemma NewerByWidth(a: string, b: string)
    requires Digits(a) && Digits(b) && |b| < |a| <= 18 && a[0] != '0'
    ensures Newer(a, b)
  {
    DigitsBound(b);
    DigitsBound(a);
    Pow10Small(|a|);
    FirstDigitWeighs(a);
    Pow10Grows(|b|, |a| - 1);
  }

  /** `strconv.Atoi`: an optional sign, then digits, within 64 bits. */
  function Atoi(s: string): Option<int> {
    if s != "" && s[0] == '-' then
      if Digits(s[1..]) && DigitsValue(s[1..]) <= MAX_INT64 + 1 then Some(0 - DigitsValue(s[1..]) as int) else None
    else
      var t := if s != "" && s[0] == '+' then s[1..] else s;
      if Digits(t) && DigitsValue(t) <= MAX_INT64 then Some(DigitsValue(t)) else None
  }

  /* ---- Paths ----------------------------------------------------------------------------- */

  function LastIndexOf(s: string, c: char): (i: int)
    ensures -1 <= i < |s| && (i >= 0 ==> s[i] == c) && forall j :: i < j < |s| ==> s[j] != c
  {
    if s == "" then -1 else if s[|s| - 1] == c then |s| - 1 else LastIndexOf(s[..|s| - 1], c)
  }

  function TrimSlashes(path: string): string {
    if path != "" && path[|path| - 1] == '/' then TrimSlashes(path[..|path| - 1]) else path
  }

  /** `filepath.Base` */
  function Base(path: string): string {
    if path == "" then "."
    else
      var p := TrimSlashes(path);
      if p == "" then "/" else p[LastIndexOf(p, '/') + 1..]
  }

  /** `kernelBasename`: the base without its last extension. */
  function KernelBasename(path: string): string {
    var b := Base(path);
    var dot := LastIndexOf(b, '.');
    if dot < 0 then b else b[..dot]
  }

  /** `strings.EqualFold`, on ASCII. */
  function Fold(s: string): string {
    if s == "" then ""
    else [if 'A' <= s[0] <= 'Z' then (s[0] as int + 32) as char else s[0]] + Fold(s[1..])
  }

  /** The path a bootloader entry names for a kernel stored in `dir`. */
  function KernelPath(dir: string, name: string): string {
    "/" + dir + "/" + name
  }

  lemma BaseOfKernelPath(dir: string, name: string)
    requires name != "" && forall i :: 0 <= i < |name| ==> name[i] != '/'
    ensures Base(KernelPath(dir, name)) == name
  {
    var path := KernelPath(dir, name);
    assert path[|path| - 1] == name[|name| - 1];
    assert TrimSlashes(path) == path;
    var k := LastIndexOf(path, '/');
    assert path[|dir| + 1] == '/' && path[|dir| + 2..] == name;
    assert k == |dir| + 1 by {
      assert forall i :: |dir| + 2 <= i < |path| ==> path[i] == name[i - |dir| - 2];
    }
  }

  lemma StoredNameHasNoSlash(ts: string, flavor: string)
    requires Digits(ts) && FlavorName(flavor)
    ensures forall i :: 0 <= i < |StoredName(ts, flavor)| ==> StoredName(ts, flavor)[i] != '/'
  {
  }
}
