/** File names of the admission directory: device names made safe, and the lock
    file of each slot. */
module Names {
  predicate Safe(c: char) {
    'A' <= c <= 'Z' || 'a' <= c <= 'z' || '0' <= c <= '9' || c == '_' || c == '.' || c == '-'
  }

  /** Every maximal run of unsafe characters becomes one underscore. */
  function Substitute(name: string, inRun: bool): string {
    if name == [] then []
    else if Safe(name[0]) then [name[0]] + Substitute(name[1..], false)
    else (if inRun then [] else ['_']) + Substitute(name[1..], true)
  }

  function Sanitize(name: string): string {
    var clean := Substitute(name, false);
    if clean == "" then "unknown" else clean
  }

  lemma {:induction false} SubstituteIsSafe(name: string, inRun: bool)
    ensures forall c :: c in Substitute(name, inRun) ==> Safe(c)
  {
    if name != [] {
      SubstituteIsSafe(name[1..], !Safe(name[0]));
    }
  }

  lemma {:induction false} SubstituteKeepsSafe(name: string, inRun: bool)
    requires forall c :: c in name ==> Safe(c)
    ensures Substitute(name, inRun) == name
  {
    if name != [] {
      SubstituteKeepsSafe(name[1..], false);
    }
  }

  /** The result is a non-empty path component without separators, safe names are
      their own result, and a second pass changes nothing. */
  lemma SanitizeMakesOneComponent(name: string)
    ensures Sanitize(name) != "" && '/' !in Sanitize(name)
    ensures forall c :: c in Sanitize(name) ==> Safe(c)
    ensures name != "" && (forall c :: c in name ==> Safe(c)) ==> Sanitize(name) == name
    ensures Sanitize(Sanitize(name)) == Sanitize(name)
  {
    SubstituteIsSafe(name, false);
    SubstituteKeepsSafe(Sanitize(name), false);
    if forall c :: c in name ==> Safe(c) {
      SubstituteKeepsSafe(name, false);
    }
  }

  /** Digits, capital and small letters, '_', '.' and '-', by their codes. */
  ghost predicate Plain(c: char) {
    var n := c as int;
    48 <= n <= 57 || 65 <= n <= 90 || 97 <= n <= 122 || n == 95 || n == 46 || n == 45
  }

  lemma {:induction false} RunIsSkipped(run: string, back: string)
    requires forall c :: c in run ==> !Safe(c)
    ensures Substitute(run + back, true) == Substitute(back, true)
  {
    if run == "" {
      assert run + back == back;
    } else {
      assert (run + back)[1..] == run[1..] + back;
      RunIsSkipped(run[1..], back);
    }
  }

  lemma {:induction false} PlainFrontStays(front: string, back: string, inRun: bool)
    requires (forall c :: c in front ==> Safe(c)) && front != ""
    ensures Substitute(front + back, inRun) == front + Substitute(back, false)
  {
    assert (front + back)[1..] == front[1..] + back;
    if |front| > 1 {
      PlainFrontStays(front[1..], back, false);
    } else {
      assert front[1..] + back == back;
    }
  }

  /** The first run of characters that are not plain becomes one underscore, plain ones before
      it stay, and so on after it; a name without any character becomes "unknown". */
  lemma RunsBecomeUnderscores(front: string, run: string, back: string)
    requires (forall c :: c in front ==> Plain(c)) && (forall c :: c in run ==> !Plain(c))
    requires run != "" && (back != "" ==> Plain(back[0]))
    ensures Sanitize(front + run + back) == front + "_" + (if back == "" then "" else Sanitize(back))
    ensures Sanitize("") == "unknown"
  {
    var tail := Substitute(back, false);
    assert forall c :: Plain(c) <==> Safe(c);
    assert (run + back)[1..] == run[1..] + back;
    RunIsSkipped(run[1..], back);
    assert Substitute(back, true) == tail;
    assert Substitute(run + back, false) == "_" + tail;
    assert front + run + back == front + (run + back);
    if front == "" {
      assert front + run + back == run + back;
    } else {
      PlainFrontStays(front, run + back, false);
    }
    assert Substitute(front + run + back, false) == front + "_" + tail;
  }

  function Digit(d: nat): char
    requires d < 10
  {
    ['0', '1', '2', '3', '4', '5', '6', '7', '8', '9'][d]
  }

  function Decimal(n: nat): string {
    if n < 10 then [Digit(n)] else Decimal(n / 10) + [Digit(n % 10)]
  }

  lemma {:induction false} DecimalInjective(m: nat, n: nat)
    requires Decimal(m) == Decimal(n)
    ensures m == n
  {
    var dm, dn := Decimal(m), Decimal(n);
    assert dm[|dm| - 1] == Digit(m % 10);
    assert dn[|dn| - 1] == Digit(n % 10);
    if m >= 10 && n >= 10 {
      assert dm[..|dm| - 1] == Decimal(m / 10);
      assert dn[..|dn| - 1] == Decimal(n / 10);
      DecimalInjective(m / 10, n / 10);
    }
  }

  lemma {:induction false} DecimalHasNoDot(n: nat)
    ensures '.' !in Decimal(n)
  {
    if n >= 10 {
      DecimalHasNoDot(n / 10);
    }
  }

  lemma LaterDot(a: string, x: string, b: string, y: string)
    requires a + "." + x == b + "." + y
    ensures |a| < |b| ==> '.' in x
  {
    if |a| < |b| {
      assert (a + "." + x)[|b|] == (b + "." + y)[|b|];
      assert x[|b| - |a| - 1] == '.';
    }
  }

  /** A name is cut in only one way at its last dot. */
  lemma CutAtLastDot(a: string, x: string, b: string, y: string)
    requires a + "." + x == b + "." + y
    requires '.' !in x && '.' !in y
    ensures a == b && x == y
  {
    var s := a + "." + x;
    LaterDot(a, x, b, y);
    LaterDot(b, y, a, x);
    assert a == s[..|a|] && b == s[..|b|];
    assert x == s[|a| + 1..] && y == s[|b| + 1..];
  }

  function DeviceSlot(safe: string, i: nat): string {
    "device." + (safe + "." + Decimal(i)) + ".lock"
  }

  function FabricSlot(i: nat): string {
    "fabric." + Decimal(i) + ".lock"
  }

  lemma DeviceSlotInjective(safe: string, i: nat, other: string, j: nat)
    requires DeviceSlot(safe, i) == DeviceSlot(other, j)
    ensures safe == other && i == j
  {
    var p, q := DeviceSlot(safe, i), DeviceSlot(other, j);
    assert p[7..|p| - 5] == safe + "." + Decimal(i);
    assert q[7..|q| - 5] == other + "." + Decimal(j);
    DecimalHasNoDot(i);
    DecimalHasNoDot(j);
    CutAtLastDot(safe, Decimal(i), other, Decimal(j));
    DecimalInjective(i, j);
  }

  lemma FabricSlotInjective(i: nat, j: nat)
    requires FabricSlot(i) == FabricSlot(j)
    ensures i == j
  {
    var p, q := FabricSlot(i), FabricSlot(j);
    assert p[7..|p| - 5] == Decimal(i);
    assert q[7..|q| - 5] == Decimal(j);
    DecimalInjective(i, j);
  }

  /** No two slots share a lock file, whatever the device is called. */
  lemma SlotsNeverCollide(safe: string, i: nat, other: string, j: nat)
    ensures DeviceSlot(safe, i) != FabricSlot(j)
    ensures DeviceSlot(safe, i) == DeviceSlot(other, j) <==> safe == other && i == j
    ensures FabricSlot(i) == FabricSlot(j) <==> i == j
  {
    assert DeviceSlot(safe, i)[0] == 'd' && FabricSlot(j)[0] == 'f';
    if DeviceSlot(safe, i) == DeviceSlot(other, j) {
      DeviceSlotInjective(safe, i, other, j);
    }
    if FabricSlot(i) == FabricSlot(j) {
      FabricSlotInjective(i, j);
    }
  }

  lemma SlotFileNames(safe: string, i: nat)
    ensures DeviceSlot(safe, i) == "device." + safe + "." + Decimal(i) + ".lock"
    ensures FabricSlot(i) == "fabric." + Decimal(i) + ".lock"
    ensures i < 10 ==> |Decimal(i)| == 1 && Decimal(i)[0] as int == '0' as int + i
    ensures i >= 10 ==> Decimal(i) == Decimal(i / 10) + Decimal(i % 10)
  {
    assert "device." + (safe + "." + Decimal(i)) + ".lock" == "device." + safe + "." + Decimal(i) + ".lock";
  }
}
