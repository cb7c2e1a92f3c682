/** The ring buffer that keeps the end of a terminal's output. */
module Monitors {
  import opened Wrappers

  newtype Byte = x: int | 0 <= x < 256

  function Min(a: nat, b: nat): nat { if a < b then a else b }

  /** The last `n` elements, or all of them. */
  function Last<T>(s: seq<T>, n: nat): seq<T> {
    if |s| <= n then s else s[|s| - n..]
  }

  lemma LastOfLast<T>(s: seq<T>, n: nat, m: nat)
    ensures Last(Last(s, n), m) == Last(s, Min(n, m))
  {
  }

  lemma LastAppend<T>(s: seq<T>, t: seq<T>, n: nat)
    ensures Last(s + t, n) == Last(Last(s, n) + t, n)
  {
  }

  /** The state of the ring: an array of fixed length, the next write position, the number of used bytes. */
  datatype RawRing = RawRing(bytes: seq<Byte>, pos: nat, used: nat) {
    ghost predicate Valid() {
      0 < |bytes| && pos < |bytes| && used <= |bytes| && (used < |bytes| ==> pos == used)
    }

    function Put(b: Byte): RawRing
      requires Valid()
    {
      RawRing(bytes[pos := b], (pos + 1) % |bytes|, if used < |bytes| then used + 1 else used)
    }

    /** The bytes of the ring, oldest first. */
    function Text(): seq<Byte>
      requires Valid()
    {
      if used < |bytes| then bytes[..used] else bytes[pos..] + bytes[..pos]
    }

    /** The bytes hashed to detect a change: the used part of the array as it lies. */
    function Hashed(): seq<Byte>
      requires Valid()
    {
      bytes[..used]
    }
  }

  lemma NextPosition(pos: nat, n: nat)
    requires pos < n
    ensures (pos + 1) % n == if pos + 1 == n then 0 else pos + 1
  {
  }

  /** One byte pushes the text along, dropping the oldest byte once the ring is full. */
  lemma PutPushes(r: RawRing, b: Byte)
    requires r.Valid()
    ensures r.Put(b).Valid()
    ensures r.Put(b).Text() == Last(r.Text() + [b], |r.bytes|)
  {
    NextPosition(r.pos, |r.bytes|);
    if r.used < |r.bytes| {
      Filling(r.bytes, r.pos, b);
    } else {
      Turning(r.bytes, r.pos, b);
    }
  }

  lemma Filling(bytes: seq<Byte>, pos: nat, b: Byte)
    requires pos < |bytes|
    ensures bytes[pos := b][..pos + 1] == bytes[..pos] + [b]
    ensures pos + 1 == |bytes| ==> bytes[pos := b][0..] + bytes[pos := b][..0] == bytes[..pos] + [b]
    ensures Last(bytes[..pos] + [b], |bytes|) == bytes[..pos] + [b]
  {
  }

  lemma Turning(bytes: seq<Byte>, pos: nat, b: Byte)
    requires pos < |bytes|
    ensures
      var next := if pos + 1 == |bytes| then 0 else pos + 1;
      bytes[pos := b][next..] + bytes[pos := b][..next] == Last(bytes[pos..] + bytes[..pos] + [b], |bytes|)
  {
    var now := bytes[pos := b];
    assert bytes[pos..] == [bytes[pos]] + bytes[pos + 1..];
    assert bytes[pos..] + bytes[..pos] + [b] == [bytes[pos]] + (bytes[pos + 1..] + bytes[..pos] + [b]);
    assert Last(bytes[pos..] + bytes[..pos] + [b], |bytes|) == bytes[pos + 1..] + bytes[..pos] + [b];
  }

  /** Everything written between two looks. */
  function PutAll(r: RawRing, p: seq<Byte>): (t: RawRing)
    requires r.Valid()
    ensures t.Valid() && |t.bytes| == |r.bytes|
  {
    if p == [] then r
    else
      PutPushes(PutAll(r, p[..|p| - 1]), p[|p| - 1]);
      PutAll(r, p[..|p| - 1]).Put(p[|p| - 1])
  }

  lemma TextFits(r: RawRing)
    requires r.Valid()
    ensures Last(r.Text(), |r.bytes|) == r.Text()
  {
  }

  lemma {:induction false} PutAllPushes(r: RawRing, p: seq<Byte>)
    requires r.Valid()
    ensures PutAll(r, p).Text() == Last(r.Text() + p, |r.bytes|)
  {
    hide RawRing.Text, RawRing.Put, Last;
    if p == [] {
      assert r.Text() + p == r.Text();
      TextFits(r);
    } else {
      var init, b := p[..|p| - 1], p[|p| - 1];
      PutAllPushes(r, init);
      PutPushes(PutAll(r, init), b);
      assert r.Text() + p == (r.Text() + init) + [b];
      LastAppend(r.Text() + init, [b], |r.bytes|);
    }
  }

  lemma NothingPut(r: RawRing)
    requires r.Valid()
    ensures PutAll(r, []) == r
  {
  }

  lemma PutOneMore(r: RawRing, p: seq<Byte>, i: nat)
    requires r.Valid() && i < |p|
    ensures PutAll(r, p[..i + 1]) == PutAll(r, p[..i]).Put(p[i])
  {
    assert p[..i + 1][..i] == p[..i];
  }

  class Monitor {
    const size: nat
    const buf: array<Byte>
    var writePos: nat
    var used: nat
    var lastSeen: Option<seq<Byte>>   // what the last hash was taken of
    ghost var stream: seq<Byte>       // everything ever written

    ghost function Raw(): RawRing reads this, buf { RawRing(buf[..], writePos, used) }

    ghost predicate Valid()
      reads this, buf
    {
      && size == buf.Length
      && Raw().Valid()
      && Raw().Text() == Last(stream, size)
    }

    constructor (size: nat)
      requires 0 < size
      ensures Valid() && stream == [] && lastSeen == None && this.size == size && fresh(buf)
    {
      this.size := size;
      buf := new Byte[size](_ => 0);
      writePos, used, lastSeen, stream := 0, 0, None, [];
    }

    method Write(p: seq<Byte>)
      requires Valid()
      modifies this`writePos, this`used, this`stream, buf
      ensures Valid() && stream == old(stream) + p
      ensures Raw() == PutAll(old(Raw()), p)
    {
      hide Monitor.Raw, RawRing.Valid, RawRing.Text, Last, PutAll;
      NothingPut(Raw());
      for i := 0 to |p|
        invariant Valid()
        invariant stream == old(stream) + p[..i]
        invariant Raw() == PutAll(old(Raw()), p[..i])
      {
        PutOneMore(old(Raw()), p, i);
        WriteByte(p[i]);
        assert p[..i + 1] == p[..i] + [p[i]];
      }
      assert p[..|p|] == p;
    }

    method WriteByte(b: Byte)
      requires Valid()
      modifies this`writePos, this`used, this`stream, buf
      ensures Valid() && stream == old(stream) + [b]
      ensures Raw() == old(Raw()).Put(b)
    {
      hide RawRing.Text, Last;
      PutPushes(Raw(), b);
      LastAppend(stream, [b], size);
      buf[writePos] := b;
      writePos := (writePos + 1) % size;
      if used < size { used := used + 1; }
      stream := stream + [b];
    }

    /** The buffered text: exactly the end of the stream. */
    method Content() returns (content: seq<Byte>)
      requires Valid()
      ensures content == Last(stream, size)
      ensures |content| == Min(size, |stream|)
    {
      if used == 0 { return []; }
      if used < size { return buf[..used]; }
      var result := new Byte[size](_ => 0);
      var start := writePos;
      forall i | 0 <= i < size - start { result[i] := buf[start + i]; }
      forall i | 0 <= i < start { result[size - start + i] := buf[i]; }
      assert result[..] == buf[start..] + buf[..start];
      return result[..];
    }

    /** Whether the compared bytes differ from those of the last look, and if so whether a prompt shows. */
    method HasUpdated(patterns: seq<seq<Byte>>) returns (updated: bool, prompt: bool)
      requires Valid()
      modifies this`lastSeen
      ensures Valid() && stream == old(stream)
      ensures updated <==> used > 0 && old(lastSeen) != Some(Raw().Hashed())
      ensures lastSeen == if used > 0 then Some(Raw().Hashed()) else old(lastSeen)
      ensures prompt <==> updated && exists p | p in patterns :: Contains(Last(stream, Min(size, 500)), p)
    {
      if used == 0 { return false, false; }
      if lastSeen == Some(buf[..used]) { return false, false; }
      lastSeen := Some(buf[..used]);
      updated := true;
      prompt := CheckPatterns(patterns);
    }

    /** Looks for any of the patterns in the last 500 buffered bytes. */
    method CheckPatterns(patterns: seq<seq<Byte>>) returns (found: bool)
      requires Valid()
      ensures found <==> exists p | p in patterns :: Contains(Last(stream, Min(size, 500)), p)
    {
      var content := Content();
      var tail := if |content| > 500 then content[|content| - 500..] else content;
      LastOfLast(stream, size, 500);
      assert tail == Last(stream, Min(size, 500));
      for i := 0 to |patterns|
        invariant forall j | 0 <= j < i :: !Contains(tail, patterns[j])
      {
        var here := FindSubstring(tail, patterns[i]);
        if here { return true; }
      }
      return false;
    }
  }

  ghost predicate OccursAt(text: seq<Byte>, p: seq<Byte>, i: nat) {
    i + |p| <= |text| && text[i..i + |p|] == p
  }

  ghost predicate Contains(text: seq<Byte>, p: seq<Byte>) {
    exists i :: OccursAt(text, p, i)
  }

  method FindSubstring(text: seq<Byte>, p: seq<Byte>) returns (found: bool)
    ensures found <==> Contains(text, p)
  {
    var i := 0;
    while i + |p| <= |text|
      invariant forall k | 0 <= k < i :: !OccursAt(text, p, k)
    {
      if text[i..i + |p|] == p {
        assert OccursAt(text, p, i);
        return true;
      }
      i := i + 1;
    }
    return false;
  }

  /** With a buffer of at least 500 bytes, the prompt check sees exactly the last 500 bytes written. */
  lemma TailIsStreamTail(stream: seq<Byte>, size: nat)
    requires 500 <= size
    ensures Last(Last(stream, size), 500) == Last(stream, 500)
  {
    LastOfLast(stream, size, 500);
  }

  // ----- Comparing the array as it lies -----

  /** While the ring is not full the compared bytes are the text: a change shows exactly when there is one. */
  lemma UnwrappedComparisonIsExact(a: RawRing, b: RawRing)
    requires a.Valid() && b.Valid() && |a.bytes| == |b.bytes|
    requires a.used < |a.bytes|
    ensures a.Hashed() == b.Hashed() <==> a.Text() == b.Text()
  {
    if a.Text() == b.Text() { assert |a.Text()| == a.used; }
  }

  /** Where byte number `k` of a write lands. */
  function Lands(pos: nat, k: nat, n: nat): (at: nat)
    requires pos < n
    ensures at < n
  {
    if k == 0 then pos
    else
      var before := Lands(pos, k - 1, n);
      if before + 1 == n then 0 else before + 1
  }

  lemma {:induction false} LandsWithinARound(pos: nat, i: nat, d: nat, n: nat)
    requires pos < n && d <= n
    ensures Lands(pos, i + d, n) == var at := Lands(pos, i, n); if at + d < n then at + d else at + d - n
  {
    if d > 0 { LandsWithinARound(pos, i, d - 1, n); }
  }

  lemma {:induction false} WritingAdvances(r: RawRing, p: seq<Byte>)
    requires r.Valid() && r.used == |r.bytes|
    ensures PutAll(r, p).pos == Lands(r.pos, |p|, |r.bytes|) && PutAll(r, p).used == |r.bytes|
  {
    if p != [] {
      WritingAdvances(r, p[..|p| - 1]);
      NextPosition(PutAll(r, p[..|p| - 1]).pos, |r.bytes|);
    }
  }

  /** Byte `i` of a write of `len` bytes is still there afterwards. */
  predicate Survives(i: int, len: nat, n: nat) { 0 <= i < len <= i + n }

  lemma {:induction false} SurvivorsAreThere(r: RawRing, p: seq<Byte>, i: nat)
    requires r.Valid() && r.used == |r.bytes| && Survives(i, |p|, |r.bytes|)
    ensures PutAll(r, p).bytes[Lands(r.pos, i, |r.bytes|)] == p[i]
  {
    hide Lands, RawRing.Text;
    var n, k := |r.bytes|, |p| - 1;
    WritingAdvances(r, p[..k]);
    if i < k {
      SurvivorsAreThere(r, p[..k], i);
      LandsWithinARound(r.pos, i, k - i, n);
    }
  }

  /** A place that differs from before holds a surviving byte. */
  lemma {:induction false} OnlySurvivorsDiffer(r: RawRing, p: seq<Byte>, j: nat)
    requires r.Valid() && r.used == |r.bytes| && j < |r.bytes| && PutAll(r, p).bytes[j] != r.bytes[j]
    ensures exists i | Survives(i, |p|, |r.bytes|) :: Lands(r.pos, i, |r.bytes|) == j
  {
    var n, k := |r.bytes|, |p| - 1;
    WritingAdvances(r, p[..k]);
    if Lands(r.pos, k, n) == j {
      assert Survives(k, |p|, n);
    } else {
      OnlySurvivorsDiffer(r, p[..k], j);
      var i :| Survives(i, k, n) && Lands(r.pos, i, n) == j;
      if i + n == k { LandsWithinARound(r.pos, i, n, n); }
      assert Survives(i, |p|, n);
    }
  }

  /** Every surviving byte equals the one it replaces. */
  ghost predicate SameWhereItLands(r: RawRing, p: seq<Byte>)
    requires r.Valid()
  {
    forall i | Survives(i, |p|, |r.bytes|) :: p[i] == r.bytes[Lands(r.pos, i, |r.bytes|)]
  }

  function Turned(bytes: seq<Byte>, at: nat): seq<Byte>
    requires at <= |bytes|
  {
    bytes[at..] + bytes[..at]
  }

  /** The comparison misses a change of the text, whatever was written between two looks, exactly when the ring was
    full, every surviving byte equals the one it replaces, and the ring read from the new position differs. */
  lemma WriteGoesUnnoticedIff(r: RawRing, p: seq<Byte>)
    requires r.Valid()
    ensures PutAll(r, p).Hashed() == r.Hashed() && PutAll(r, p).Text() != r.Text() <==>
      && r.used == |r.bytes| && SameWhereItLands(r, p)
      && Turned(r.bytes, Lands(r.pos, |p|, |r.bytes|)) != Turned(r.bytes, r.pos)
  {
    var t, n := PutAll(r, p), |r.bytes|;
    if r.used < n {
      FillingShows(r, p);
    } else {
      WritingAdvances(r, p);
      assert t.Hashed() == t.bytes && r.Hashed() == r.bytes;
      if SameWhereItLands(r, p) {
        forall j | 0 <= j < n ensures t.bytes[j] == r.bytes[j] {
          if t.bytes[j] != r.bytes[j] {
            OnlySurvivorsDiffer(r, p, j);
            var i :| Survives(i, |p|, n) && Lands(r.pos, i, n) == j;
            SurvivorsAreThere(r, p, i);
          }
        }
        assert t.bytes == r.bytes;
      }
      if t.bytes == r.bytes {
        forall i | Survives(i, |p|, n) ensures p[i] == r.bytes[Lands(r.pos, i, n)] { SurvivorsAreThere(r, p, i); }
      }
    }
  }

  lemma {:induction false} FillingShows(r: RawRing, p: seq<Byte>)
    requires r.Valid() && r.used < |r.bytes|
    ensures p == [] ==> PutAll(r, p) == r
    ensures p != [] ==> PutAll(r, p).used > r.used
  {
    if |p| > 1 { FillingShows(r, p[..|p| - 1]); }
  }

  /** Such a change exists: a full ring reading "aab" and then "a" reads "aba", with no byte changed. */
  lemma ComparisonMissesARotation()
    ensures
      var r := RawRing([97, 97, 98], 0, 3);
      r.Valid() && r.Put(97).Valid() && r.Hashed() == r.Put(97).Hashed() && r.Text() != r.Put(97).Text()
  {
    var r := RawRing([97, 97, 98], 0, 3);
    assert r.Text() == [97, 97, 98] && r.Put(97).Text() == [97, 98, 97];
    assert r.Text()[1] != r.Put(97).Text()[1];
  }
}
