/** Small vocabulary shared by the models. */
module Common {

  datatype Option<+T> = None | Some(value: T)

  /** The result of a step of the simulator: the next state, or the abort of the whole program
      (a failed NS_ASSERT, an NS_ABORT_MSG_IF or an uncaught exception). */
  datatype Outcome<+T> = Next(value: T) | Abort

  /** The elements that satisfy p, in their order. */
  function Select<T>(s: seq<T>, p: T -> bool): seq<T>
  {
    if s == [] then []
    else Select(s[..|s| - 1], p) + (if p(s[|s| - 1]) then [s[|s| - 1]] else [])
  }

  /** A table of devices by address, after entering them one by one. */
  function Registry<D>(before: map<int, D>, devices: seq<D>, address: D -> int): map<int, D>
  {
    if devices == [] then before
    else
      var last := devices[|devices| - 1];
      Registry(before, devices[..|devices| - 1], address)[address(last) := last]
  }

  /** A device with an address of its own is found under it, in whatever order all were entered. */
  lemma {:induction false} RegistryFinds<D>(before: map<int, D>, devices: seq<D>, address: D -> int, d: D)
    requires d in devices && forall e :: e in devices && address(e) == address(d) ==> e == d
    ensures address(d) in Registry(before, devices, address)
    ensures Registry(before, devices, address)[address(d)] == d
    decreases |devices|
  {
    if devices[|devices| - 1] != d {
      assert d in devices[..|devices| - 1];
      RegistryFinds(before, devices[..|devices| - 1], address, d);
    }
  }

  function Repeat<T>(x: T, n: nat): (s: seq<T>)
    ensures |s| == n
    ensures forall i :: 0 <= i < n ==> s[i] == x
  {
    seq(n, i => x)
  }

  lemma Ordered(k: int, n: int, interval: nat)
    requires k <= n
    ensures k * interval <= n * interval
  {
    assert (n - k) * interval >= 0;
  }

  lemma Quotient(now: nat, interval: nat, n: nat)
    requires interval > 0 && n * interval <= now < n * interval + interval
    ensures n == now / interval
  {
    var q := now / interval;
    assert now == q * interval + now % interval;
    assert (q + 1) * interval == q * interval + interval;
    if q < n { Ordered(q + 1, n, interval); }
    assert (n + 1) * interval == n * interval + interval;
    if q > n { Ordered(n + 1, q, interval); }
  }

  /** How many entries are true. */
  function CountTrue(s: seq<bool>): nat
  {
    if s == [] then 0 else CountTrue(s[..|s| - 1]) + (if s[|s| - 1] then 1 else 0)
  }

  lemma {:induction false} CountTrueConcat(a: seq<bool>, b: seq<bool>)
    ensures CountTrue(a + b) == CountTrue(a) + CountTrue(b)
  {
    if b == [] {
      assert a + b == a;
    } else {
      CountTrueConcat(a, b[..|b| - 1]);
      assert (a + b)[..|a + b| - 1] == a + b[..|b| - 1];
    }
  }

  lemma {:induction false} CountTrueConstant(s: seq<bool>, x: bool)
    requires forall i :: 0 <= i < |s| ==> s[i] == x
    ensures CountTrue(s) == if x then |s| else 0
  {
    if s != [] {
      CountTrueConstant(s[..|s| - 1], x);
    }
  }

  /** Counting over [a, c) splits at b. */
  lemma CountTrueSplit(s: seq<bool>, a: nat, b: nat, c: nat)
    requires a <= b <= c <= |s|
    ensures CountTrue(s[a..c]) == CountTrue(s[a..b]) + CountTrue(s[b..c])
  {
    CountTrueConcat(s[a..b], s[b..c]);
    assert s[a..b] + s[b..c] == s[a..c];
  }
}

module Packets {
  datatype Packet = Packet(uid: nat, size: nat)

  const PPP_HEADER_SIZE: nat := 2

  /** Send puts a PPP header on every packet before queueing it. */
  function AddHeader(p: Packet): (framed: Packet)
    ensures framed.uid == p.uid && framed.size == p.size + 2
  {
    p.(size := p.size + PPP_HEADER_SIZE)
  }
}

/** Facts about % that the solver does not find by itself. */
module ModularArithmetic {
  lemma AddMultiple(x: int, k: int, n: int)
    requires n > 0
    ensures (x + k * n) % n == x % n
  {
    var r := x % n;
    var p := x / n;
    assert x == p * n + r;
    assert x + k * n == (p + k) * n + r;
    SameQuotient((x + k * n) / n, (x + k * n) % n, p + k, r, n);
  }

  lemma SameQuotient(q: int, r: int, p: int, s: int, n: int)
    requires 0 <= r < n && 0 <= s < n && q * n + r == p * n + s
    ensures r == s
  {
    assert (q - p) * n == s - r;
    if q != p { MultipleIsFar(q - p, n); }
  }

  lemma MultipleIsFar(k: int, n: int)
    requires n > 0 && k != 0
    ensures k * n >= n || k * n <= -n
  {
    if k > 0 { assert (k - 1) * n >= 0; } else { assert (-k - 1) * n >= 0; }
  }

  lemma Reduce(d: int, x: int, n: int)
    requires n > 0
    ensures (d % n + x) % n == (d + x) % n
  {
    assert d == d / n * n + d % n;
    AddMultiple(d % n + x, d / n, n);
  }

  lemma ReduceSubtrahend(x: int, d: int, n: int)
    requires n > 0
    ensures (x - d % n) % n == (x - d) % n
  {
    assert d == d / n * n + d % n;
    AddMultiple(x - d, d / n, n);
  }

  lemma SmallModulus(x: int, n: int)
    requires 0 <= x < n
    ensures x % n == x
  {
  }

  lemma TakeBack(x: int, m: int, n: int)
    requires 0 <= x < n
    ensures ((x + m) % n - m) % n == x
  {
    Reduce(x + m, -m, n);
    SmallModulus(x, n);
  }

  lemma InRange(x: int, n: int)
    requires n > 0
    ensures x % n == x <==> 0 <= x < n
  {
  }
}
