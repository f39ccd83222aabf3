/** Machine integers, options and a few sequence facts shared by the models. */
module Common {
  type Byte = x: int | 0 <= x < 0x100
  type Uint16 = x: int | 0 <= x < 0x1_0000
  type Uint32 = x: int | 0 <= x < 0x1_0000_0000
  type Uint64 = x: int | 0 <= x < 0x1_0000_0000_0000_0000

  datatype Option<+T> = None | Some(value: T)

  /** An octet read as a signed 8-bit number. */
  function SignedByte(b: Byte): (v: int)
    ensures -128 <= v < 128 && (v - b) % 256 == 0
  {
    if b < 128 then b else b as int - 256
  }

  function Zeros(n: nat): (z: seq<Byte>)
    ensures |z| == n
  {
    seq(n, _ => 0)
  }

  lemma {:induction false} ConcatAssociates<T>(a: seq<T>, b: seq<T>, c: seq<T>)
    ensures a + (b + c) == a + b + c
  {
  }

  lemma {:induction false} ShorterPrefix<T>(a: seq<T>, b: seq<T>, c: seq<T>)
    requires a + b <= c
    ensures a <= c
  {
    assert (a + b)[..|a|] == a;
  }

  lemma {:induction false} SliceOfDrop<T>(s: seq<T>, k: nat, a: nat, b: nat)
    requires a <= b && k + b <= |s|
    ensures s[k..][a..b] == s[k + a..k + b]
  {
  }

  function Flatten<T>(parts: seq<seq<T>>): seq<T> {
    if parts == [] then [] else parts[0] + Flatten(parts[1..])
  }

  lemma {:induction false} FlattenSnoc<T>(parts: seq<seq<T>>, p: seq<T>)
    ensures Flatten(parts + [p]) == Flatten(parts) + p
  {
    if parts == [] {
      assert [p][1..] == [];
      assert Flatten([p]) == p + Flatten([]);
    } else {
      assert (parts + [p])[1..] == parts[1..] + [p];
      FlattenSnoc(parts[1..], p);
    }
  }

  /** What the first n elements contribute, in order. */
  function Collected<T, K>(f: T -> seq<K>, s: seq<T>, n: nat): seq<K>
    requires n <= |s|
  {
    if n == 0 then [] else Collected(f, s, n - 1) + f(s[n - 1])
  }

  lemma {:induction false} CollectedPrefix<T, K>(f: T -> seq<K>, a: seq<T>, b: seq<T>, n: nat)
    requires n <= |a|
    ensures Collected(f, a + b, n) == Collected(f, a, n)
  {
    if n > 0 {
      CollectedPrefix(f, a, b, n - 1);
    }
  }

  lemma {:induction false} CollectedSuffix<T, K>(f: T -> seq<K>, a: seq<T>, b: seq<T>, n: nat)
    requires n <= |b|
    ensures Collected(f, a + b, |a| + n) == Collected(f, a, |a|) + Collected(f, b, n)
  {
    if n == 0 {
      CollectedPrefix(f, a, b, |a|);
    } else {
      CollectedSuffix(f, a, b, n - 1);
      assert (a + b)[|a| + n - 1] == b[n - 1];
      ConcatAssociates(Collected(f, a, |a|), Collected(f, b, n - 1), f(b[n - 1]));
    }
  }

  lemma {:induction false} CollectedConcat<T, K>(f: T -> seq<K>, a: seq<T>, b: seq<T>)
    ensures Collected(f, a + b, |a + b|) == Collected(f, a, |a|) + Collected(f, b, |b|)
  {
    CollectedSuffix(f, a, b, |b|);
  }

  /** Two lists whose elements contribute the same contribute the same. */
  lemma {:induction false} CollectedSame<T, U, K>(f: T -> seq<K>, g: U -> seq<K>, a: seq<T>, b: seq<U>, n: nat)
    requires n <= |a| == |b| && forall i :: 0 <= i < |a| ==> f(a[i]) == g(b[i])
    ensures Collected(f, a, n) == Collected(g, b, n)
  {
    if n > 0 {
      CollectedSame(f, g, a, b, n - 1);
    }
  }

  function Min(a: nat, b: nat): nat {
    if a <= b then a else b
  }

  function Truncate<T>(s: seq<T>, n: nat): (t: seq<T>)
    ensures |t| == Min(|s|, n) && t <= s
  {
    if |s| <= n then s else s[..n]
  }

  /** Little-endian value of a byte string. */
  function LittleEndian(s: seq<Byte>): nat {
    if s == [] then 0 else (s[0] as int) + 256 * LittleEndian(s[1..])
  }

  function Power256(n: nat): nat {
    if n == 0 then 1 else 256 * Power256(n - 1)
  }

  lemma {:induction false} LittleEndianConcat(a: seq<Byte>, b: seq<Byte>)
    ensures LittleEndian(a + b) == LittleEndian(a) + Power256(|a|) * LittleEndian(b)
  {
    if a == [] {
      assert a + b == b;
    } else {
      assert (a + b)[1..] == a[1..] + b;
      LittleEndianConcat(a[1..], b);
      assert LittleEndian(a + b) == (a[0] as int) + 256 * LittleEndian(a[1..] + b);
      ScaleProduct(Power256(|a| - 1), LittleEndian(b));
    }
  }

  lemma {:induction false} ScaleProduct(p: int, v: int)
    ensures 256 * (p * v) == (256 * p) * v
  {
  }
}
