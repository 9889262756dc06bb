/** Whether an MP4 file can be played while it downloads (upload/streamable.py): a walk over
    the top-level boxes of section 4.2 of ISO/IEC 14496-12, against a writer of such boxes. */
module Mp4Boxes {
  import opened Common

  type Bytes = seq<byte>

  const MOOV: Bytes := [0x6D, 0x6F, 0x6F, 0x76]
  const MDAT: Bytes := [0x6D, 0x64, 0x61, 0x74]

  /** A big-endian unsigned number. */
  function Number(bs: Bytes): nat {
    if bs == [] then 0 else Number(bs[..|bs| - 1]) * 256 + bs[|bs| - 1]
  }

  function Pow256(n: nat): nat { if n == 0 then 1 else Pow256(n - 1) * 256 }

  function BigEndian(x: nat, width: nat): (bs: Bytes)
    ensures |bs| == width
  {
    if width == 0 then [] else BigEndian(x / 256, width - 1) + [x % 256]
  }

  lemma {:induction false} NumberOfBigEndian(x: nat, width: nat)
    requires x < Pow256(width)
    ensures Number(BigEndian(x, width)) == x
  {
    if width > 0 {
      NumberOfBigEndian(x / 256, width - 1);
      var bs := BigEndian(x, width);
      assert bs[..|bs| - 1] == BigEndian(x / 256, width - 1);
    }
  }

  // ------------------------------------------------------------ the walk

  /** The rest of the walk from `offset`. A file is read as the bytes it holds. */
  function Walk(file: Bytes, offset: nat): bool
    decreases |file| - offset
  {
    if offset + 8 > |file| then false
    else
      var size, kind := Number(file[offset..offset + 4]), file[offset + 4..offset + 8];
      if kind == MOOV then true
      else if kind == MDAT then false
      else if size == 1 then
        if offset + 16 > |file| then false
        else
          var extended := Number(file[offset + 8..offset + 16]);
          extended >= 8 && Walk(file, offset + extended)
      else size >= 8 && Walk(file, offset + size)
  }

  /** From a box that is neither `moov` nor `mdat` to the next: its size is in four bytes, or in
      eight more that are all there, and is at least 8. */
  ghost predicate NextBox(file: Bytes, at: nat, next: nat) {
    && at + 8 <= |file|
    && file[at + 4..at + 8] != [109, 111, 111, 118] && file[at + 4..at + 8] != [109, 100, 97, 116]
    && next >= at + 8
    && if Number(file[at..at + 4]) == 1 then at + 16 <= |file| && next - at == Number(file[at + 8..at + 16])
       else next - at == Number(file[at..at + 4])
  }

  ghost predicate BoxPath(file: Bytes, at: seq<nat>) { forall i :: 0 <= i < |at| - 1 ==> NextBox(file, at[i], at[i + 1]) }

  /** The path ends at a whole header of kind `moov`. */
  ghost predicate EndsAtMoov(file: Bytes, at: seq<nat>) {
    at != [] && at[|at| - 1] + 8 <= |file| && file[at[|at| - 1] + 4..at[|at| - 1] + 8] == [109, 111, 111, 118]
  }

  ghost predicate MoovReached(file: Bytes, offset: nat) {
    exists at: seq<nat> :: BoxPath(file, at) && EndsAtMoov(file, at) && at[0] == offset
  }

  lemma {:induction false} PathLeads(file: Bytes, at: seq<nat>)
    requires BoxPath(file, at) && EndsAtMoov(file, at)
    ensures Walk(file, at[0])
    decreases |at|
  {
    hide Number;
    if |at| > 1 {
      assert NextBox(file, at[0], at[1]);
      forall i | 0 <= i < |at[1..]| - 1 ensures NextBox(file, at[1..][i], at[1..][i + 1]) {
        assert NextBox(file, at[i + 1], at[i + 2]);
      }
      PathLeads(file, at[1..]);
    }
  }

  lemma PathFrom(file: Bytes, offset: nat, next: nat)
    requires NextBox(file, offset, next) && MoovReached(file, next)
    ensures MoovReached(file, offset)
  {
    hide NextBox;
    var at :| BoxPath(file, at) && EndsAtMoov(file, at) && at[0] == next;
    var longer := [offset] + at;
    forall i | 0 <= i < |longer| - 1 ensures NextBox(file, longer[i], longer[i + 1]) {
      assert i > 0 ==> NextBox(file, at[i - 1], at[i]);
    }
    assert EndsAtMoov(file, longer) && longer[0] == offset;
  }

  /** Of any bytes whatever: the walk answers yes exactly when boxes of stated sizes lead from its
      start to a `moov`. A size below 8, a header cut short and the end of the file are no. */
  lemma {:induction false} WalkIff(file: Bytes, offset: nat)
    ensures Walk(file, offset) <==> MoovReached(file, offset)
    decreases |file| - offset
  {
    hide Number;
    if at: seq<nat> :| BoxPath(file, at) && EndsAtMoov(file, at) && at[0] == offset {
      PathLeads(file, at);
    }
    if Walk(file, offset) {
      if file[offset + 4..offset + 8] == MOOV {
        assert BoxPath(file, [offset]) && EndsAtMoov(file, [offset]);
      } else {
        var small := Number(file[offset..offset + 4]);
        var next := offset + if small == 1 then Number(file[offset + 8..offset + 16]) else small;
        WalkIff(file, next);
        PathFrom(file, offset, next);
      }
    }
  }

  method MoovBeforeMdat(file: Bytes) returns (faststart: bool)
    ensures faststart == Walk(file, 0)
  {
    var offset := 0;
    while offset + 8 <= |file|
      invariant Walk(file, offset) == Walk(file, 0)
      decreases |file| - offset
    {
      var header := file[offset..offset + 8];
      assert header[..4] == file[offset..offset + 4] && header[4..] == file[offset + 4..offset + 8];
      var size, kind := Number(header[..4]), header[4..];
      if kind == MOOV {
        return true;
      }
      if kind == MDAT {
        return false;
      }
      if size == 1 {
        var extended := file[offset + 8..Min(offset + 16, |file|)];
        if |extended| < 8 {
          return false;
        }
        size := Number(extended);
      } else if size == 0 {
        return false;
      }
      if size < 8 {
        return false;
      }
      offset := offset + size;
    }
    faststart := false;
  }

  // ------------------------------------------------------------ the writer

  /** How a box states its size: in four bytes, in eight more, or as "to the end of the file". */
  datatype Form = Short | Long | ToTheEnd

  datatype Box = Box(kind: Bytes, payload: Bytes, form: Form)

  function HeaderSize(f: Form): nat { if f.Long? then 16 else 8 }

  function Size(b: Box): nat { HeaderSize(b.form) + |b.payload| }

  function Header(b: Box): Bytes {
    match b.form
    case Short => BigEndian(Size(b), 4) + b.kind
    case Long => BigEndian(1, 4) + b.kind + BigEndian(Size(b), 8)
    case ToTheEnd => BigEndian(0, 4) + b.kind
  }

  function Write(bs: seq<Box>): Bytes {
    if bs == [] then [] else Header(bs[0]) + bs[0].payload + Write(bs[1..])
  }

  /** Kinds have four bytes, sizes fit their fields, and only the last box runs to the end. */
  predicate WellFormed(bs: seq<Box>) {
    bs != [] ==>
      && |bs[0].kind| == 4
      && (bs[0].form.Short? ==> Size(bs[0]) < Pow256(4)) && (bs[0].form.Long? ==> Size(bs[0]) < Pow256(8))
      && (bs[0].form.ToTheEnd? ==> |bs| == 1)
      && WellFormed(bs[1..])
  }

  /** The first of the two kinds in the file is `moov`. */
  predicate MoovFirst(bs: seq<Box>) {
    bs != [] && bs[0].kind != MDAT && (bs[0].kind == MOOV || MoovFirst(bs[1..]))
  }

  lemma HeaderReads(before: Bytes, b: Box, rest: Bytes)
    requires |b.kind| == 4 && (b.form.Short? ==> Size(b) < Pow256(4)) && (b.form.Long? ==> Size(b) < Pow256(8))
    ensures var file := before + (Header(b) + b.payload + rest);
            var at := |before|;
            && at + 8 <= |file| && file[at + 4..at + 8] == b.kind
            && Number(file[at..at + 4]) == (match b.form case Short => Size(b) case Long => 1 case ToTheEnd => 0)
            && (b.form.Long? ==> at + 16 <= |file| && Number(file[at + 8..at + 16]) == Size(b))
  {
    hide Number, BigEndian;
    var file := before + (Header(b) + b.payload + rest);
    var at := |before|;
    assert file[at..at + |Header(b)|] == Header(b);
    var size := match b.form case Short => Size(b) case Long => 1 case ToTheEnd => 0;
    assert file[at..at + 4] == BigEndian(size, 4);
    assert Pow256(4) > 1 by {
      assert Pow256(4) == Pow256(3) * 256 && Pow256(3) == Pow256(2) * 256 && Pow256(2) == Pow256(1) * 256 && Pow256(1) == 256;
    }
    NumberOfBigEndian(size, 4);
    assert file[at + 4..at + 8] == b.kind;
    if b.form.Long? {
      assert file[at + 8..at + 16] == BigEndian(Size(b), 8);
      NumberOfBigEndian(Size(b), 8);
    }
  }

  lemma {:induction false} WalkOfWritten(before: Bytes, bs: seq<Box>)
    requires WellFormed(bs)
    ensures Walk(before + Write(bs), |before|) <==> MoovFirst(bs)
    decreases |bs|
  {
    hide Number, Header, Walk;
    if bs == [] {
      EndOfFile(before + Write(bs), |before|);
    } else {
      var b, rest := bs[0], Write(bs[1..]);
      var file := before + (Header(b) + b.payload + rest);
      assert file == before + Write(bs);
      OneBox(before, b, rest);
      HeaderLength(b);
      var next := before + (Header(b) + b.payload);
      assert next + rest == file;
      WalkOfWritten(next, bs[1..]);
      assert |next| == |before| + Size(b);
      if b.form.ToTheEnd? {
        assert bs[1..] == [];
      }
    }
  }

  lemma EndOfFile(file: Bytes, offset: nat)
    requires offset == |file|
    ensures !Walk(file, offset)
  {
  }

  /** The walk over one box. */
  lemma OneBox(before: Bytes, b: Box, rest: Bytes)
    requires |b.kind| == 4 && (b.form.Short? ==> Size(b) < Pow256(4)) && (b.form.Long? ==> Size(b) < Pow256(8))
    ensures var file := before + (Header(b) + b.payload + rest);
            Walk(file, |before|) ==
              (b.kind == MOOV || (b.kind != MDAT && !b.form.ToTheEnd? && Walk(file, |before| + Size(b))))
  {
    hide Number, Header, Pow256, Walk;
    HeaderReads(before, b, rest);
    var file := before + (Header(b) + b.payload + rest);
    HeaderLength(b);
    WalkStep(file, |before|, Size(b), b.kind, b.form);
  }

  lemma WalkStep(file: Bytes, at: nat, size: nat, kind: Bytes, form: Form)
    requires at + 8 <= |file| && file[at + 4..at + 8] == kind && size >= 8
    requires Number(file[at..at + 4]) == match form case Short => size case Long => 1 case ToTheEnd => 0
    requires form.Long? ==> at + 16 <= |file| && Number(file[at + 8..at + 16]) == size
    ensures Walk(file, at) == (kind == MOOV || (kind != MDAT && !form.ToTheEnd? && Walk(file, at + size)))
  {
    hide Number;
  }

  lemma HeaderLength(b: Box)
    requires |b.kind| == 4
    ensures |Header(b)| == HeaderSize(b.form)
  {
  }

  /** For every file made of boxes, the walk says exactly whether `moov` comes before `mdat`
      (and is there at all). */
  lemma WalkAgreesWithTheBoxes(bs: seq<Box>)
    requires WellFormed(bs)
    ensures Walk(Write(bs), 0) <==> MoovFirst(bs)
  {
    WalkOfWritten([], bs);
    assert [] + Write(bs) == Write(bs);
  }
}
