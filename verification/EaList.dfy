/** The list of extended attributes that gives a Windows file its Linux owner and mode.

    The builder lays records of one common stride into a block of memory: each holds the
    distance to the next one (0 in the last), flags, the lengths of name and value, the
    name with a terminating zero, and the value. The specification is the reader: the
    kernel walks the list by those distances. */
module EaList {
  import opened Wrappers
  import opened Bytes

  const ALIGN: nat := 4
  const STRUCT_SIZE: nat := 9  // sizeof(FILE_FULL_EA_INFORMATION), packed
  const NAME_OFFSET: nat := 8

  datatype EaInfo = EaInfo(flags: uint8, name: seq<uint8>, value: seq<uint8>)

  function Le16(n: nat): (s: seq<uint8>)
    requires n < 0x1_0000
    ensures |s| == 2
  {
    [n % 0x100, n / 0x100]
  }

  function FromLe16(s: seq<uint8>): nat
    requires |s| == 2
  {
    var hi: int := s[1];
    hi * 0x100 + s[0]
  }

  function Reverse4(s: seq<uint8>): (r: seq<uint8>)
    requires |s| == 4
    ensures |r| == 4
  {
    [s[3], s[2], s[1], s[0]]
  }

  /** The lengths go into fields of eight and sixteen bits, the distance into one of 32. */
  function Header(ea: EaInfo, next: nat): (s: seq<uint8>)
    ensures |s| == NAME_OFFSET
  {
    Reverse4(Be32(Wrap32(next))) + [ea.flags] + [|ea.name| % 0x100] + Le16(|ea.value| % 0x1_0000)
  }

  function RecordBytes(ea: EaInfo, next: nat): (s: seq<uint8>)
    ensures |s| == STRUCT_SIZE + |ea.name| + |ea.value|
  {
    Header(ea, next) + ea.name + [0] + ea.value
  }

  // ---------------------------------------------------------------- the reader

  function ReadRecord(memory: seq<uint8>, at: nat): Option<(EaInfo, nat)> {
    if at + NAME_OFFSET > |memory| then None
    else
      var nameLength := memory[at + 5];
      var valueLength := FromLe16(memory[at + 6..at + 8]);
      var valueAt := at + NAME_OFFSET + nameLength + 1;
      if valueAt + valueLength > |memory| then None
      else Some((EaInfo(memory[at + 4], memory[at + NAME_OFFSET..at + NAME_OFFSET + nameLength],
                        memory[valueAt..valueAt + valueLength]),
                 FromBe32(Reverse4(memory[at..at + 4]))))
  }

  /** The records found by following the distances, or none if that leaves the memory. */
  function Walk(memory: seq<uint8>, at: nat): Option<seq<EaInfo>>
    decreases if at <= |memory| then |memory| - at else 0
  {
    match ReadRecord(memory, at)
    case None => None
    case Some((ea, next)) =>
      if next == 0 then Some([ea])
      else
        match Walk(memory, at + next)
        case None => None
        case Some(others) => Some([ea] + others)
  }

  // ---------------------------------------------------------------- the layout

  ghost predicate Fits(ea: EaInfo) {
    |ea.name| < 0x100 && |ea.value| < 0x1_0000
  }

  ghost predicate AllFit(eas: seq<EaInfo>) {
    forall i :: 0 <= i < |eas| ==> Fits(eas[i])
  }

  ghost predicate RecordAt(memory: seq<uint8>, at: nat, ea: EaInfo, next: nat) {
    && at + STRUCT_SIZE + |ea.name| + |ea.value| <= |memory|
    && memory[at..at + STRUCT_SIZE + |ea.name| + |ea.value|] == RecordBytes(ea, next)
  }

  function At(base: nat, stride: nat, i: nat): nat {
    base + i * stride
  }

  /** Where the next record is, from record `i`. */
  function Distance(eas: seq<EaInfo>, stride: nat, i: nat): nat {
    if i + 1 == |eas| then 0 else stride
  }

  /** The first `n` records are in place, record `i` at `base + i * stride`. */
  ghost predicate Placed(memory: seq<uint8>, base: nat, stride: nat, eas: seq<EaInfo>, n: nat)
    requires n <= |eas|
  {
    forall i :: 0 <= i < n ==> RecordAt(memory, At(base, stride, i), eas[i], Distance(eas, stride, i))
  }

  ghost predicate Layout(memory: seq<uint8>, base: nat, stride: nat, eas: seq<EaInfo>) {
    Placed(memory, base, stride, eas, |eas|)
  }

  /** Every byte of a record: distance, least significant byte first, flags, lengths, name,
      a terminating zero, and value. Lengths and distance are cut to their fields. */
  lemma RecordFields(memory: seq<uint8>, at: nat, ea: EaInfo, next: nat)
    requires RecordAt(memory, at, ea, next)
    ensures var m, n, v := memory, |ea.name|, |ea.value|;
            && m[at] + 256 * (m[at + 1] as int) + 65536 * (m[at + 2] as int) + 16777216 * (m[at + 3] as int)
               == next % 0x1_0000_0000
            && m[at + 4] == ea.flags && m[at + 5] == n % 256
            && m[at + 6] + 256 * (m[at + 7] as int) == v % 65536
            && m[at + 8..at + 8 + n] == ea.name && m[at + 8 + n] == 0 && m[at + 9 + n..at + 9 + n + v] == ea.value
  {
    hide Header, RecordAt, RecordBytes;
    RecordPieces(memory, at, ea, next);
    FieldsOfHeader(ea, next);
    var h := memory[at..at + NAME_OFFSET];
    assert forall k :: 0 <= k < NAME_OFFSET ==> h[k] == memory[at + k];
  }

  lemma RecordPieces(memory: seq<uint8>, at: nat, ea: EaInfo, next: nat)
    requires RecordAt(memory, at, ea, next)
    ensures var n, v := |ea.name|, |ea.value|;
            && at + 9 + n + v <= |memory|
            && memory[at..at + 8] == Header(ea, next) && memory[at + 8..at + 8 + n] == ea.name
            && memory[at + 8 + n] == 0 && memory[at + 9 + n..at + 9 + n + v] == ea.value
  {
    hide Header;
    var n, h := |ea.name|, Header(ea, next);
    Piece(memory, at, [], h, ea.name + [0] + ea.value);
    Piece(memory, at, h, ea.name, [0] + ea.value);
    Piece(memory, at, h + ea.name, [0], ea.value);
    Piece(memory, at, h + ea.name + [0], ea.value, []);
    assert memory[at + 8 + n..at + 8 + n + 1][0] == memory[at + 8 + n];
  }

  lemma FieldsOfHeader(ea: EaInfo, next: nat)
    ensures var h := Header(ea, next);
            && h[0] + 256 * (h[1] as int) + 65536 * (h[2] as int) + 16777216 * (h[3] as int) == next % 0x1_0000_0000
            && h[4] == ea.flags && h[5] == |ea.name| % 256
            && h[6] + 256 * (h[7] as int) == |ea.value| % 65536
  {
    Be32Order(Wrap32(next));
    hide Be32;
  }

  lemma Le16RoundTrip(n: nat)
    requires n < 0x1_0000
    ensures FromLe16(Le16(n)) == n
  {
  }

  lemma ReadBack(memory: seq<uint8>, at: nat, ea: EaInfo, next: nat)
    requires RecordAt(memory, at, ea, next) && Fits(ea) && next < WORD32
    ensures ReadRecord(memory, at) == Some((ea, next))
  {
    hide Header;
    var n, v := |ea.name|, |ea.value|;
    Piece(memory, at, [], Header(ea, next), ea.name + [0] + ea.value);
    Piece(memory, at, Header(ea, next), ea.name, [0] + ea.value);
    Piece(memory, at, Header(ea, next) + ea.name + [0], ea.value, []);
    ReadHeader(memory, at, ea, next);
  }

  lemma Piece(memory: seq<uint8>, at: nat, front: seq<uint8>, piece: seq<uint8>, back: seq<uint8>)
    requires at + |front + piece + back| <= |memory|
    requires memory[at..at + |front + piece + back|] == front + piece + back
    ensures memory[at + |front|..at + |front| + |piece|] == piece
  {
    var whole := front + piece + back;
    var part := memory[at..at + |whole|];
    forall k | 0 <= k < |piece| ensures memory[at + |front| + k] == piece[k] {
      assert part[|front| + k] == memory[at + |front| + k];
      assert whole[|front| + k] == piece[k];
    }
  }

  lemma ReadHeader(memory: seq<uint8>, at: nat, ea: EaInfo, next: nat)
    requires at + NAME_OFFSET <= |memory| && memory[at..at + NAME_OFFSET] == Header(ea, next)
    requires Fits(ea) && next < WORD32
    ensures FromBe32(Reverse4(memory[at..at + 4])) == next && memory[at + 4] == ea.flags
    ensures memory[at + 5] == |ea.name| && FromLe16(memory[at + 6..at + 8]) == |ea.value|
  {
    hide Be32, FromBe32, Le16, FromLe16;
    var h := memory[at..at + NAME_OFFSET];
    assert memory[at..at + 4] == h[..4] == Reverse4(Be32(next));
    assert Reverse4(Reverse4(Be32(next))) == Be32(next);
    FromBe32OfBe32(next);
    assert memory[at + 4] == h[4] && memory[at + 5] == h[5];
    assert memory[at + 6..at + 8] == h[6..8] == Le16(|ea.value|);
    Le16RoundTrip(|ea.value|);
  }

  lemma {:induction false} WalkLayout(memory: seq<uint8>, base: nat, stride: nat, eas: seq<EaInfo>, i: nat)
    requires Layout(memory, base, stride, eas) && AllFit(eas) && 0 < stride < WORD32 && i < |eas|
    ensures Walk(memory, At(base, stride, i)) == Some(eas[i..])
    decreases |eas| - i
  {
    hide RecordAt, ReadRecord;
    ReadBack(memory, At(base, stride, i), eas[i], Distance(eas, stride, i));
    if i + 1 == |eas| {
      assert eas[i..] == [eas[i]];
    } else {
      NextAt(base, stride, i);
      WalkLayout(memory, base, stride, eas, i + 1);
      assert eas[i..] == [eas[i]] + eas[i + 1..];
    }
  }

  lemma NextAt(base: nat, stride: nat, i: nat)
    ensures At(base, stride, i + 1) == At(base, stride, i) + stride
  {
  }

  lemma {:induction false} WalkedFit(memory: seq<uint8>, at: nat)
    requires Walk(memory, at).Some?
    ensures AllFit(Walk(memory, at).value)
    decreases if at <= |memory| then |memory| - at else 0
  {
    hide FromBe32, Reverse4;
    var Some((ea, next)) := ReadRecord(memory, at);
    assert Fits(ea);
    if next != 0 {
      WalkedFit(memory, at + next);
    }
  }

  // ---------------------------------------------------------------- the builder

  function MaxRecord(eas: seq<EaInfo>): nat {
    if eas == [] then 0
    else
      var last := eas[|eas| - 1];
      var size := STRUCT_SIZE + |last.name| + |last.value|;
      var others := MaxRecord(eas[..|eas| - 1]);
      if others < size then size else others
  }

  function Stride(eas: seq<EaInfo>): nat {
    (MaxRecord(eas) + ALIGN - 1) / ALIGN * ALIGN
  }

  lemma {:induction false} StrideCovers(eas: seq<EaInfo>, i: nat)
    requires i < |eas|
    ensures STRUCT_SIZE + |eas[i].name| + |eas[i].value| <= MaxRecord(eas) <= Stride(eas)
    ensures Stride(eas) % ALIGN == 0
  {
    if i < |eas| - 1 {
      StrideCovers(eas[..|eas| - 1], i);
    }
  }

  /** The stride is no longer than it has to be: less than four bytes more than some record. */
  lemma {:induction false} StrideTight(eas: seq<EaInfo>) returns (i: nat)
    requires eas != []
    ensures i < |eas| && Stride(eas) < STRUCT_SIZE + |eas[i].name| + |eas[i].value| + 4
  {
    i := LongestAt(eas);
  }

  lemma {:induction false} LongestAt(eas: seq<EaInfo>) returns (i: nat)
    requires eas != []
    ensures i < |eas| && MaxRecord(eas) == STRUCT_SIZE + |eas[i].name| + |eas[i].value|
  {
    var front := eas[..|eas| - 1];
    if front == [] {
      i := 0;
    } else {
      i := LongestAt(front);
      assert front[i] == eas[i];
      if MaxRecord(eas) != MaxRecord(front) {
        i := |eas| - 1;
      }
    }
  }

  lemma {:induction false} StrideSmall(eas: seq<EaInfo>)
    requires AllFit(eas)
    ensures MaxRecord(eas) <= STRUCT_SIZE + 0xFF + 0xFFFF
  {
    if eas != [] {
      var front := eas[..|eas| - 1];
      assert forall i :: 0 <= i < |front| ==> front[i] == eas[i];
      StrideSmall(front);
    }
  }

  /** Walking a list the builder laid out gives back what was emitted, flags, names and
      values in order, exactly when every name is shorter than 256 bytes and every value
      shorter than 65536. */
  lemma WalkIffFits(memory: seq<uint8>, base: nat, eas: seq<EaInfo>)
    requires eas != [] && Layout(memory, base, Stride(eas), eas)
    ensures Walk(memory, base) == Some(eas) <==> AllFit(eas)
  {
    if AllFit(eas) {
      StrideCovers(eas, 0);
      StrideSmall(eas);
      WalkLayout(memory, base, Stride(eas), eas, 0);
      assert eas[0..] == eas && At(base, Stride(eas), 0) == base;
    } else if Walk(memory, base) == Some(eas) {
      WalkedFit(memory, base);
      assert false;
    }
  }

  /** Records start at aligned addresses, do not overlap, and stay inside the block. */
  lemma RecordsApart(eas: seq<EaInfo>, address: nat, base: nat, i: nat, j: nat)
    requires i < j < |eas| && (address + base) % ALIGN == 0
    ensures (address + At(base, Stride(eas), j)) % ALIGN == 0
    ensures At(base, Stride(eas), i) + STRUCT_SIZE + |eas[i].name| + |eas[i].value| <= At(base, Stride(eas), j)
    ensures At(base, Stride(eas), j) + STRUCT_SIZE + |eas[j].name| + |eas[j].value| <= base + |eas| * Stride(eas)
  {
    hide Stride, MaxRecord;
    var stride := Stride(eas);
    StrideCovers(eas, i);
    StrideCovers(eas, j);
    NextAt(base, stride, i);
    NextAt(base, stride, j);
    Multiples(stride, i + 1, j);
    Multiples(stride, j + 1, |eas|);
    MultipleAligned(address + base, stride, j);
  }

  lemma Multiples(stride: nat, i: nat, j: nat)
    requires i <= j
    ensures i * stride <= j * stride
  {
  }

  lemma SumAligned(x: nat, y: nat)
    requires x % ALIGN == 0 && y % ALIGN == 0
    ensures (x + y) % ALIGN == 0
  {
  }

  lemma {:induction false} MultipleAligned(start: nat, stride: nat, j: nat)
    requires start % ALIGN == 0 && stride % ALIGN == 0
    ensures At(start, stride, j) % ALIGN == 0
  {
    if j > 0 {
      MultipleAligned(start, stride, j - 1);
      NextAt(start, stride, j - 1);
      SumAligned(At(start, stride, j - 1), stride);
    }
  }

  /** Records elsewhere do not notice a change of the bytes from `lo` to `hi`. */
  lemma RecordUntouched(before: seq<uint8>, after: seq<uint8>, at: nat, ea: EaInfo, next: nat, lo: nat, hi: nat)
    requires RecordAt(before, at, ea, next) && |after| == |before| && lo <= hi <= |before|
    requires after[..lo] == before[..lo] && after[hi..] == before[hi..]
    requires at + STRUCT_SIZE + |ea.name| + |ea.value| <= lo || hi <= at
    ensures RecordAt(after, at, ea, next)
  {
    var n := STRUCT_SIZE + |ea.name| + |ea.value|;
    forall k | at <= k < at + n ensures after[k] == before[k] {
      if k < lo {
        assert after[k] == after[..lo][k] && before[k] == before[..lo][k];
      } else {
        assert after[k] == after[hi..][k - hi] && before[k] == before[hi..][k - hi];
      }
    }
    assert after[at..at + n] == before[at..at + n];
  }

  /** Writing record `i` leaves the records before it alone. */
  lemma StillThere(eas: seq<EaInfo>, before: seq<uint8>, after: seq<uint8>, base: nat, k: nat, i: nat)
    requires k < i < |eas| && |after| == |before|
    requires RecordAt(before, At(base, Stride(eas), k), eas[k], Distance(eas, Stride(eas), k))
    requires var at, n := At(base, Stride(eas), i), STRUCT_SIZE + |eas[i].name| + |eas[i].value|;
             at + n <= |before| && after[..at] == before[..at] && after[at + n..] == before[at + n..]
    ensures RecordAt(after, At(base, Stride(eas), k), eas[k], Distance(eas, Stride(eas), k))
  {
    hide Stride, MaxRecord, RecordAt;
    var stride := Stride(eas);
    StrideCovers(eas, k);
    NextAt(base, stride, k);
    Multiples(stride, k + 1, i);
    var at := At(base, stride, i);
    RecordUntouched(before, after, At(base, stride, k), eas[k], Distance(eas, stride, k),
      at, at + STRUCT_SIZE + |eas[i].name| + |eas[i].value|);
  }

  lemma NothingPlaced(memory: seq<uint8>, base: nat, eas: seq<EaInfo>)
    ensures Placed(memory, base, Stride(eas), eas, 0)
  {
  }

  lemma RoomFor(eas: seq<EaInfo>, base: nat, size: nat, i: nat)
    requires i < |eas| && size == |eas| * Stride(eas)
    ensures At(base, Stride(eas), i) + STRUCT_SIZE + |eas[i].name| + |eas[i].value| <= base + size
  {
    hide Stride, MaxRecord;
    StrideCovers(eas, i);
    NextAt(base, Stride(eas), i);
    Multiples(Stride(eas), i + 1, |eas|);
  }

  /** Writing record `i` after the ones before it. */
  lemma OneMore(eas: seq<EaInfo>, before: seq<uint8>, after: seq<uint8>, base: nat, i: nat)
    requires i < |eas| && |after| == |before| && Placed(before, base, Stride(eas), eas, i)
    requires RecordAt(after, At(base, Stride(eas), i), eas[i], Distance(eas, Stride(eas), i))
    requires var at, n := At(base, Stride(eas), i), STRUCT_SIZE + |eas[i].name| + |eas[i].value|;
             at + n <= |before| && after[..at] == before[..at] && after[at + n..] == before[at + n..]
    ensures Placed(after, base, Stride(eas), eas, i + 1)
  {
    hide Stride, MaxRecord, RecordAt, Distance, At;
    forall k | 0 <= k < i
      ensures RecordAt(after, At(base, Stride(eas), k), eas[k], Distance(eas, Stride(eas), k))
    {
      StillThere(eas, before, after, base, k, i);
    }
  }

  lemma Grown(before: seq<uint8>, after: seq<uint8>, at: nat, end: nat, written: seq<uint8>, to: nat, bytes: seq<uint8>)
    requires to == at + |written| && to + |bytes| <= end <= |before| == |after|
    requires before[at..to] == written && after[to..to + |bytes|] == bytes
    requires after[..to] == before[..to] && after[to + |bytes|..] == before[to + |bytes|..]
    ensures after[at..to + |bytes|] == written + bytes
    ensures after[..at] == before[..at] && after[end..] == before[end..]
  {
    assert after[at..to] == after[..to][at..] == before[..to][at..] == written;
    assert after[at..to + |bytes|] == after[at..to] + after[to..to + |bytes|];
    assert after[..at] == after[..to][..at] == before[..to][..at] == before[..at];
    var gap := end - to - |bytes|;
    assert after[end..] == after[to + |bytes|..][gap..] == before[to + |bytes|..][gap..] == before[end..];
  }

  class EaInfoBuilder {
    var eaInfos: seq<EaInfo>

    constructor ()
      ensures eaInfos == []
    {
      eaInfos := [];
    }

    method EmitEa(flags: uint8, name: seq<uint8>, value: seq<uint8>)
      modifies this
      ensures eaInfos == old(eaInfos) + [EaInfo(flags, name, value)]
    {
      eaInfos := eaInfos + [EaInfo(flags, name, value)];
    }

    method ComputeStride() returns (maxSize: nat)
      ensures maxSize == Stride(eaInfos)
    {
      maxSize := 0;
      var i := 0;
      while i < |eaInfos|
        invariant 0 <= i <= |eaInfos| && maxSize == MaxRecord(eaInfos[..i])
      {
        assert eaInfos[..i + 1][..i] == eaInfos[..i];
        var size := STRUCT_SIZE + |eaInfos[i].name| + |eaInfos[i].value|;
        maxSize := if maxSize < size then size else maxSize;
        i := i + 1;
      }
      assert eaInfos[..i] == eaInfos;
      ghost var m := maxSize;
      while maxSize % ALIGN != 0
        invariant m <= maxSize <= (m + ALIGN - 1) / ALIGN * ALIGN
        decreases (m + ALIGN - 1) / ALIGN * ALIGN - maxSize
      {
        maxSize := maxSize + 1;
      }
    }

    /** Lays the list out in a fresh block, whose memory begins at `address`. Nothing is
        written outside the `size` bytes from `base`, which lie inside the block. */
    method FinishEaList(address: nat) returns (block: array<uint8>, base: nat, size: nat)
      ensures fresh(block) && base < ALIGN && (address + base) % ALIGN == 0
      ensures size == |eaInfos| * Stride(eaInfos) && base + size <= block.Length
      ensures Layout(block[..], base, Stride(eaInfos), eaInfos)
    {
      hide Stride, MaxRecord, RecordAt, Distance, Placed, At;
      var maxSize := ComputeStride();
      size := |eaInfos| * maxSize;
      block := new uint8[size + ALIGN](_ => 0);
      base := AlignedBase(address);
      NothingPlaced(block[..], base, eaInfos);
      var i := 0;
      while i < |eaInfos|
        invariant 0 <= i <= |eaInfos| && Placed(block[..], base, maxSize, eaInfos, i)
      {
        RoomFor(eaInfos, base, size, i);
        var at := At(base, maxSize, i);
        var next := LastOrStride(i, maxSize);
        ghost var before := block[..];
        WriteRecord(block, at, eaInfos[i], next);
        OneMore(eaInfos, before, block[..], base, i);
        i := i + 1;
      }
    }

    method LastOrStride(i: nat, maxSize: nat) returns (next: nat)
      requires i < |eaInfos|
      ensures next == Distance(eaInfos, maxSize, i)
    {
      next := if i == |eaInfos| - 1 then 0 else maxSize;
    }

    static method AlignedBase(address: nat) returns (base: nat)
      ensures base < ALIGN && (address + base) % ALIGN == 0
    {
      base := 0;
      while (address + base) % ALIGN != 0
        invariant base <= (ALIGN - address % ALIGN) % ALIGN
        decreases (ALIGN - address % ALIGN) % ALIGN - base
      {
        base := base + 1;
      }
    }

    /** Copies `bytes` to `at`. */
    static method Copy(block: array<uint8>, at: nat, bytes: seq<uint8>)
      requires at + |bytes| <= block.Length
      modifies block
      ensures block[at..at + |bytes|] == bytes
      ensures block[..at] == old(block[..at]) && block[at + |bytes|..] == old(block[at + |bytes|..])
    {
      forall i | 0 <= i < |bytes| {
        block[at + i] := bytes[i];
      }
    }

    /** Copies `bytes` behind the part of a record that has been written. */
    static method Extend(block: array<uint8>, at: nat, ghost end: nat, ghost written: seq<uint8>, to: nat, bytes: seq<uint8>)
      requires to == at + |written| && to + |bytes| <= end <= block.Length && block[at..to] == written
      modifies block
      ensures block[at..to + |bytes|] == written + bytes
      ensures block[..at] == old(block[..at]) && block[end..] == old(block[end..])
    {
      ghost var before := block[..];
      Copy(block, to, bytes);
      ghost var after := block[..];
      Grown(before, after, at, end, written, to, bytes);
      assert after[..at] == block[..at] && after[end..] == block[end..];
    }

    static method WriteHeader(block: array<uint8>, at: nat, ghost end: nat, ea: EaInfo, next: nat)
      requires at + NAME_OFFSET <= end <= block.Length
      modifies block
      ensures block[at..at + NAME_OFFSET] == Header(ea, next)
      ensures block[..at] == old(block[..at]) && block[end..] == old(block[end..])
    {
      hide Be32, Le16, Reverse4;
      ghost var w := Reverse4(Be32(Wrap32(next)));
      Extend(block, at, end, [], at, Reverse4(Be32(Wrap32(next))));
      assert [] + w == w;
      Extend(block, at, end, w, at + 4, [ea.flags]);
      w := w + [ea.flags];
      Extend(block, at, end, w, at + 5, [|ea.name| % 0x100]);
      w := w + [|ea.name| % 0x100];
      Extend(block, at, end, w, at + 6, Le16(|ea.value| % 0x1_0000));
    }

    static method WriteRecord(block: array<uint8>, at: nat, ea: EaInfo, next: nat)
      requires at + STRUCT_SIZE + |ea.name| + |ea.value| <= block.Length
      modifies block
      ensures RecordAt(block[..], at, ea, next)
      ensures block[..at] == old(block[..at])
      ensures var end := at + STRUCT_SIZE + |ea.name| + |ea.value|; block[end..] == old(block[end..])
    {
      hide Header;
      ghost var end := at + STRUCT_SIZE + |ea.name| + |ea.value|;
      WriteHeader(block, at, end, ea, next);
      ghost var w := Header(ea, next);
      Extend(block, at, end, w, at + NAME_OFFSET, ea.name);
      w := w + ea.name;
      Extend(block, at, end, w, at + NAME_OFFSET + |ea.name|, [0]);
      w := w + [0];
      Extend(block, at, end, w, at + NAME_OFFSET + |ea.name| + 1, ea.value);
      assert block[..][at..end] == block[at..end];
    }
  }
}
