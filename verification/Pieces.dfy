/** DR scans that are sent in pieces: calls of shiftDR that do not end the scan, and a last one that does. */
module Pieces {
  import opened Bits
  import opened Tap
  import opened IoFtdi
  import opened Jtag
  import opened Scans
  import opened Mpsse

  datatype Piece = Piece(tdi: seq<byte>, len: nat)

  predicate Fits(p: Piece) { BytesFor(p.len) <= |p.tdi| }

  function AllBits(pieces: seq<Piece>): seq<bool>
    requires forall k :: 0 <= k < |pieces| ==> Fits(pieces[k])
  {
    if pieces == [] then []
    else
      var p := pieces[|pieces| - 1];
      assert Fits(p);
      AllBits(pieces[..|pieces| - 1]) + BitsOf(p.tdi, p.len)
  }

  /** The clocks of the pieces one after the other. */
  function AfterPieces(e: seq<Edge>, pieces: seq<Piece>, read: bool, last: bool): seq<Edge>
    requires forall k :: 0 <= k < |pieces| ==> Fits(pieces[k])
  {
    if pieces == [] then e
    else
      var p := pieces[|pieces| - 1];
      assert Fits(p);
      AfterData(AfterPieces(e, pieces[..|pieces| - 1], read, false), Some(p.tdi), read, p.len, last)
  }

  /** The bytes of one scan with the same data. */
  function Whole(pieces: seq<Piece>): (w: seq<byte>)
    requires forall k :: 0 <= k < |pieces| ==> Fits(pieces[k])
    ensures |w| == BytesFor(|AllBits(pieces)|)
  {
    Pack(AllBits(pieces))
  }

  lemma WholeBits(pieces: seq<Piece>)
    requires forall k :: 0 <= k < |pieces| ==> Fits(pieces[k])
    ensures BitsOf(Whole(pieces), |AllBits(pieces)|) == AllBits(pieces)
  {
    PackedBits(AllBits(pieces));
  }

  lemma PackedBits(bits: seq<bool>)
    ensures BitsOf(Pack(bits), |bits|) == bits
  {
    hide Pack, BitAt;
    forall i | 0 <= i < |bits| ensures BitAt(Pack(bits), i) == bits[i] { PackedBitAt(bits, i); }
  }

  /** Pieces are clocked like the whole. The last piece must not be empty when it has to carry the last clock. */
  lemma {:induction false} PiecesAreWhole(e: seq<Edge>, pieces: seq<Piece>, read: bool, last: bool)
    requires pieces != [] && forall k :: 0 <= k < |pieces| ==> Fits(pieces[k])
    requires last ==> pieces[|pieces| - 1].len > 0
    ensures AfterPieces(e, pieces, read, last) == AfterData(e, Some(Whole(pieces)), read, |AllBits(pieces)|, last)
    decreases |pieces|
  {
    hide Pack, AfterData, BitsOf, Whole;
    var n := |pieces| - 1;
    var p, front := pieces[n], pieces[..n];
    WholeBits(pieces);
    if n == 0 {
      OnlyPiece(pieces);
      SameScan(e, p.tdi, Whole(pieces), read, p.len, last);
    } else {
      PiecesAreWhole(e, front, read, false);
      WholeBits(front);
      JoinLast(e, Whole(front), |AllBits(front)|, p, Whole(pieces), read, last);
    }
  }

  lemma OnlyPiece(pieces: seq<Piece>)
    requires |pieces| == 1 && Fits(pieces[0])
    ensures AllBits(pieces) == BitsOf(pieces[0].tdi, pieces[0].len)
    ensures forall e, read, last ::
      AfterPieces(e, pieces, read, last) == AfterData(e, Some(pieces[0].tdi), read, pieces[0].len, last)
  {
    hide AfterData, BitsOf;
    assert pieces[..0] == [];
  }

  /** Only the bits that are clocked count. */
  lemma SameScan(e: seq<Edge>, a: seq<byte>, b: seq<byte>, read: bool, n: nat, last: bool)
    requires BytesFor(n) <= |a| && BytesFor(n) <= |b| && BitsOf(a, n) == BitsOf(b, n)
    ensures AfterData(e, Some(a), read, n, last) == AfterData(e, Some(b), read, n, last)
  {
    hide BitAt;
    forall i | 0 <= i < n ensures BitAt(a, i) == BitAt(b, i) { assert BitsOf(a, n)[i] == BitsOf(b, n)[i]; }
    assert ShiftClocks(Level(e), Some(a), n, last) == ShiftClocks(Level(e), Some(b), n, last);
  }

  lemma JoinLast(e: seq<Edge>, a: seq<byte>, m: nat, p: Piece, whole: seq<byte>, read: bool, last: bool)
    requires BytesFor(m) <= |a| && Fits(p) && BytesFor(m + p.len) <= |whole| && (last ==> p.len > 0)
    requires BitsOf(whole, m + p.len) == BitsOf(a, m) + BitsOf(p.tdi, p.len)
    ensures AfterData(AfterData(e, Some(a), read, m, false), Some(p.tdi), read, p.len, last)
      == AfterData(e, Some(whole), read, m + p.len, last)
  {
    hide AfterData, BitAt;
    if p.len > 0 {
      SplitScan(e, a, m, p.tdi, p.len, whole, read, last);
    } else {
      NoData(AfterData(e, Some(a), read, m, false), p.tdi, read);
      assert BitsOf(a, m) + BitsOf(p.tdi, 0) == BitsOf(a, m);
      SameScan(e, a, whole, read, m, false);
    }
  }

  lemma NoData(e: seq<Edge>, tdi: seq<byte>, read: bool)
    ensures AfterData(e, Some(tdi), read, 0, false) == e
  {
  }

  // ----- reading

  /** The bits read in a piece come behind those read before. */
  lemma ReadOn(io: IoFtdi, e1: seq<Edge>, e: seq<Edge>, tdi: seq<byte>, m: nat, n: nat, last: bool)
    requires BytesFor(n) <= |tdi| && |e| == |e1| + m
    ensures var e2 := AfterData(e, Some(tdi), true, n, last);
      io.Samples(e2, |e1|, m + n) == io.Samples(e, |e1|, m) + io.Samples(e2, |e|, n)
  {
    var e2 := AfterData(e, Some(tdi), true, n, last);
    assert e2 == e + e2[|e|..];
    hide AfterData;
    io.SamplesConcat(e, e2[|e|..], |e1|, m, n);
  }

  lemma BitsRead(before: seq<byte>, after: seq<byte>, bits: seq<bool>)
    requires Overwritten(before, after, 0, Pack(bits))
    ensures BytesFor(|bits|) <= |after| && BitsOf(after, |bits|) == bits
  {
    hide Pack, BitAt;
    forall i | 0 <= i < |bits| ensures BitAt(after, i) == bits[i] {
      PackedBitAt(bits, i);
      FirstBytes(after, Pack(bits), i);
    }
  }

  lemma FirstBytes(s: seq<byte>, t: seq<byte>, i: nat)
    requires |t| <= |s| && s[0..0 + |t|] == t && i < 8 * |t|
    ensures BitAt(s, i) == BitAt(t, i)
  {
    assert s[0..0 + |t|][i / 8] == s[i / 8];
  }

  // ----- the calls

  /** What the calls have done so far: `n` pieces are clocked behind `e1`, and their bits are read. */
  ghost predicate Underway(j: Jtag, e1: seq<Edge>, pieces: seq<Piece>, got: seq<bool>)
    requires forall k :: 0 <= k < |pieces| ==> Fits(pieces[k])
    reads j, j.io, j.io.usbuf, j.io.tmsBuf
  {
    && j.Valid() && j.Agrees() && j.deviceIndex >= 0
    && BeforeDrData(j.Edges(), j.current, j.shiftDRincomplete, j.numDevices - j.deviceIndex - 1)
         == AfterPieces(e1, pieces, true, false)
    && ScanState(j.current, j.shiftDRincomplete) == Known(Dr(Shift))
    && ReadSoFar(j.io, e1, AfterPieces(e1, pieces, true, false), got) && |got| == |AllBits(pieces)|
  }

  ghost predicate ReadSoFar(io: IoFtdi, e1: seq<Edge>, e2: seq<Edge>, got: seq<bool>) {
    |e2| == |e1| + |got| && got == io.Samples(e2, |e1|, |got|)
  }

  /** A DR scan in any number of pieces does what one scan with all their data does, and the bits read in the pieces are
      together the bits that the one scan reads. */
  method ScanInPieces(j: Jtag, pieces: seq<Piece>) returns (got: seq<bool>, ghost e1: seq<Edge>)
    requires j.Valid() && j.Agrees() && !j.shiftDRincomplete && j.deviceIndex >= 0
    requires pieces != [] && forall k :: 0 <= k < |pieces| ==> Fits(pieces[k])
    requires j.deviceIndex == 0 ==> pieces[|pieces| - 1].len > 0
    modifies j`current, j`shiftDRincomplete, j.io, j.io.usbuf, j.io.tmsBuf
    ensures j.Valid() && j.Agrees() && j.current == Known(j.postDR) && !j.shiftDRincomplete
    ensures e1 == BeforeDrData(old(j.Edges()), old(j.current), false, j.numDevices - j.deviceIndex - 1)
    ensures var e2 := AfterData(e1, Some(Whole(pieces)), true, |AllBits(pieces)|, j.deviceIndex == 0);
      && j.Edges() == AfterDrData(e2, j.deviceIndex, j.postDR)
      && got == j.io.Samples(e2, |e1|, |AllBits(pieces)|)
  {
    hide Interpret, SlotsFit, Tracks, AfterData, AfterMove, AfterScan, AfterDrData, RecordAfter, Whole, AllBits;
    e1 := BeforeDrData(j.Edges(), j.current, false, j.numDevices - j.deviceIndex - 1);
    got := [];
    assert AllBits([]) == [] by { NoBitsYet(); }
    var i := 0;
    var n := |pieces| - 1;
    while i < n
      invariant 0 <= i <= n && Underway(j, e1, pieces[..i], got)
      invariant j.postDR == old(j.postDR) && j.deviceIndex == old(j.deviceIndex)
    {
      got := OnePiece(j, pieces[..i], pieces[i], got, false, e1);
      assert pieces[..i] + [pieces[i]] == pieces[..i + 1];
      i := i + 1;
    }
    assert pieces[..n] + [pieces[n]] == pieces;
    got := OnePiece(j, pieces[..n], pieces[n], got, true, e1);
    PiecesAreWhole(e1, pieces, true, j.deviceIndex == 0);
  }

  lemma NoBitsYet()
    ensures AllBits([]) == []
  {
  }

  /** One call. */
  method OnePiece(j: Jtag, ghost done: seq<Piece>, p: Piece, before: seq<bool>, exit: bool, ghost e1: seq<Edge>)
    returns (got: seq<bool>)
    requires Fits(p) && (forall k :: 0 <= k < |done| ==> Fits(done[k])) && Underway(j, e1, done, before)
    requires exit && j.deviceIndex == 0 ==> p.len > 0
    modifies j`current, j`shiftDRincomplete, j.io, j.io.usbuf, j.io.tmsBuf
    ensures j.Valid() && j.Agrees()
    ensures !exit ==> Underway(j, e1, done + [p], got)
    ensures exit ==> j.current == Known(j.postDR) && !j.shiftDRincomplete
    ensures exit ==>
      var e2 := AfterPieces(e1, done + [p], true, j.deviceIndex == 0);
      && j.Edges() == AfterDrData(e2, j.deviceIndex, j.postDR)
      && |got| == |AllBits(done + [p])| && ReadSoFar(j.io, e1, e2, got)
  {
    hide Interpret, SlotsFit, Tracks, AfterData, AfterMove, AfterScan, AfterDrData, Overwritten, Pack;
    var tdo := new byte[BytesFor(p.len)];
    ghost var blank, k := tdo[..], j.deviceIndex;
    ghost var e, e2 := j.ShiftDR(Some(p.tdi), tdo, p.len, exit);
    assert (done + [p])[..|done|] == done;
    ReadOn(j.io, e1, e, p.tdi, |before|, p.len, k == 0 && exit);
    BitsRead(blank, tdo[..], j.io.Samples(e2, |e|, p.len));
    got := before + BitsOf(tdo[..], p.len);
    if exit { EndsScan(e2, k, j.postDR); } else { GoesOn(e2, k, j.postDR); }
  }

  lemma GoesOn(e: seq<Edge>, post: nat, next: TapState)
    ensures AfterScan(e, Known(Dr(Shift)), post, false, next) == e
    ensures RecordAfter(Known(Dr(Shift)), false, next) == Known(Dr(Shift))
  {
  }
}
