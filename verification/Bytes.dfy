// Octets, little-endian fields and the small sequence facts the layers share.
module Bytes {
  type byte = x: int | 0 <= x < 256
  type Bytes = seq<byte>
  type u16 = x: int | 0 <= x < 0x1_0000
  type u32 = x: int | 0 <= x < 0x1_0000_0000

  datatype Option<+T> = None | Some(value: T)

  // The two octets at `at`, low octet first. The source throws when they are not there; every caller
  // here has checked the length first, as every caller there has.
  function Le16(d: Bytes, at: nat): u16
    requires at + 2 <= |d|
  {
    var low: int, high: int := d[at], d[at + 1];
    low + 256 * high
  }

  function Le32(d: Bytes, at: nat): u32
    requires at + 4 <= |d|
  {
    var low: int, high: int := Le16(d, at), Le16(d, at + 2);
    low + 0x1_0000 * high
  }

  // The octets put16 stores.
  function Word(v: u16): Bytes {
    [v % 256, v / 256]
  }

  function Bit(x: nat, k: nat): nat {
    if k == 0 then x % 2 else Bit(x / 2, k - 1)
  }

  function Flatten<T>(chunks: seq<seq<T>>): seq<T> {
    if chunks == [] then [] else chunks[0] + Flatten(chunks[1..])
  }

  lemma FlattenAppend<T>(a: seq<seq<T>>, b: seq<seq<T>>)
    ensures Flatten(a + b) == Flatten(a) + Flatten(b)
  {
    if a == [] {
      assert a + b == b;
    } else {
      assert (a + b)[1..] == a[1..] + b;
      FlattenAppend(a[1..], b);
    }
  }

  function Remove<T>(s: seq<T>, i: nat): seq<T>
    requires i < |s|
  {
    s[..i] + s[i + 1..]
  }

  lemma RemoveShifts<T>(s: seq<T>, i: nat)
    requires i < |s|
    ensures |Remove(s, i)| == |s| - 1
    ensures forall j :: 0 <= j < |s| - 1 ==> Remove(s, i)[j] == s[if j < i then j else j + 1]
  {
    forall j | 0 <= j < |s| - 1
      ensures Remove(s, i)[j] == s[if j < i then j else j + 1]
    {
      if j < i { assert s[..i][j] == s[j]; } else { assert s[i + 1..][j - i] == s[j + 1]; }
    }
  }

  ghost predicate Distinct<T(!new)>(s: seq<T>) {
    forall i, j :: 0 <= i < j < |s| ==> s[i] != s[j]
  }

  function Elements<T>(s: seq<T>): set<T> {
    set x | x in s
  }

  lemma DistinctElements<T(!new)>(s: seq<T>)
    requires Distinct(s)
    ensures |Elements(s)| == |s|
  {
    if s != [] {
      var t := s[..|s| - 1];
      DistinctElements(t);
      assert s == t + [s[|s| - 1]];
      assert Elements(s) == Elements(t) + {s[|s| - 1]};
    }
  }

  lemma SubsetSize<T>(a: set<T>, b: set<T>)
    requires a <= b
    ensures |a| <= |b|
  {
    assert b == a + (b - a);
  }
}
