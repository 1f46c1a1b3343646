/**
 The chain of extensions behind a request or a reply under repair: one more unreachable
 destination is written at an offset computed from a counter, and the receiver walks the chain
 by the length fields it finds.
 */
module ExtensionChain {
  import opened SequenceNumbers

  const AODV_EXT_HDR_SIZE: nat := 2
  const AODV_MSG_MAX_SIZE: nat := 824

  /** Sizes of the fixed part and of one destination, and the type of the extension that holds it. */
  datatype Format = Format(size: nat, udestSize: u8, udestType: u8)

  const RREQ: Format := Format(32, 12, 5)
  const RREP: Format := Format(32, 8, 6)

  /** `RREQ_CALC_SIZE` and `RREP_CALC_SIZE` */
  function CalcSize(f: Format, destCount: nat): nat
    requires destCount >= 1
  {
    f.size + (destCount - 1) * f.udestSize
  }

  /** `RREQ_EXT_OFFSET` and `RREP_EXT_OFFSET` */
  function ExtOffset(f: Format, destCount: nat): nat
    requires destCount >= 1
  {
    AODV_EXT_HDR_SIZE * (destCount - 1) + CalcSize(f, destCount)
  }

  lemma OffsetGrows(f: Format, destCount: nat)
    requires destCount >= 1
    ensures ExtOffset(f, 1) == f.size
    ensures ExtOffset(f, destCount + 1) == ExtOffset(f, destCount) + AODV_EXT_HDR_SIZE + f.udestSize
    ensures f.size <= ExtOffset(f, destCount)
  {
    assert destCount * f.udestSize == (destCount - 1) * f.udestSize + f.udestSize;
  }

  // ---------- what the receiver sees ----------

  datatype Ext = Ext(kind: u8, data: seq<u8>)

  /** The length fields lead from `pos` exactly to `end`. */
  predicate Fits(b: seq<u8>, pos: nat, end: nat)
    decreases end - pos
  {
    && pos <= end <= |b|
    && (pos < end ==>
          && pos + AODV_EXT_HDR_SIZE <= end && pos + AODV_EXT_HDR_SIZE + b[pos + 1] <= end
          && Fits(b, pos + AODV_EXT_HDR_SIZE + b[pos + 1], end))
  }

  function ExtAt(b: seq<u8>, pos: nat): Ext
    requires pos + 1 < |b| && pos + AODV_EXT_HDR_SIZE + b[pos + 1] <= |b|
  {
    Ext(b[pos], b[pos + AODV_EXT_HDR_SIZE..pos + AODV_EXT_HDR_SIZE + b[pos + 1]])
  }

  function Chain(b: seq<u8>, pos: nat, end: nat): seq<Ext>
    requires Fits(b, pos, end)
    decreases end - pos
  {
    if pos == end then [] else [ExtAt(b, pos)] + Chain(b, pos + AODV_EXT_HDR_SIZE + b[pos + 1], end)
  }

  lemma FirstLink(b: seq<u8>, pos: nat, end: nat)
    requires Fits(b, pos, end) && pos < end
    ensures pos + AODV_EXT_HDR_SIZE <= end <= |b|
    ensures var next := pos + AODV_EXT_HDR_SIZE + b[pos + 1];
            next <= end && Fits(b, next, end) && Chain(b, pos, end) == [ExtAt(b, pos)] + Chain(b, next, end)
  {
  }

  lemma WalkStarts(b: seq<u8>, pos: nat, end: nat)
    requires Fits(b, pos, end)
    ensures pos <= end <= |b| && Fits(b, end, end) && Chain(b, end, end) == []
  {
  }

  lemma SamePart(b: seq<u8>, b': seq<u8>, end: nat, i: nat, j: nat)
    requires i <= j <= end <= |b| == |b'| && b'[..end] == b[..end]
    ensures b'[i..j] == b[i..j]
  {
    forall k | i <= k < j ensures b'[k] == b[k] {
      assert b'[..end][k] == b[..end][k];
    }
  }

  /** An extension written behind a chain becomes its last link. */
  lemma {:induction false} ChainGrows(b: seq<u8>, b': seq<u8>, pos: nat, end: nat)
    requires Fits(b, pos, end) && |b'| == |b| && b'[..end] == b[..end]
    requires end + 1 < |b'| && end + AODV_EXT_HDR_SIZE + b'[end + 1] <= |b'|
    ensures var end' := end + AODV_EXT_HDR_SIZE + b'[end + 1];
            Fits(b', pos, end') && Chain(b', pos, end') == Chain(b, pos, end) + [ExtAt(b', end)]
    decreases end - pos
  {
    var end' := end + AODV_EXT_HDR_SIZE + b'[end + 1];
    if pos == end {
      assert Fits(b', end', end') && Chain(b', end', end') == [];
    } else {
      var next := pos + AODV_EXT_HDR_SIZE + b[pos + 1];
      assert b'[pos] == b'[..end][pos] && b'[pos + 1] == b'[..end][pos + 1];
      ChainGrows(b, b', next, end);
      SamePart(b, b', end, pos + AODV_EXT_HDR_SIZE, next);
      assert ExtAt(b', pos) == ExtAt(b, pos);
    }
  }

  // ---------- the message buffer ----------

  class Message {
    const format: Format
    const buf: array<u8>
    var destCount: nat

    ghost predicate Valid()
      reads this, buf
    {
      destCount >= 1 && buf.Length == AODV_MSG_MAX_SIZE && Fits(buf[..], format.size, ExtOffset(format, destCount))
    }

    /** The extensions in the buffer, in order. */
    ghost function Extensions(): seq<Ext>
      requires Valid()
      reads this, buf
    {
      Chain(buf[..], format.size, ExtOffset(format, destCount))
    }

    constructor (format: Format)
      requires format.size <= AODV_MSG_MAX_SIZE
      ensures Valid() && this.format == format && destCount == 1 && Extensions() == [] && fresh(buf)
    {
      this.format := format;
      buf := new u8[AODV_MSG_MAX_SIZE](_ => 0);
      destCount := 1;
      new;
      OffsetGrows(format, 1);
    }

    /** `rreq_add_ext` and `rrep_add_ext`, for an extension that fits the buffer. */
    method AddExt(kind: u8, offset: nat, data: seq<u8>) returns (ok: bool)
      requires |data| <= 0xFF && offset + AODV_EXT_HDR_SIZE + |data| <= buf.Length
      modifies buf
      ensures ok <==> offset >= format.size
      ensures !ok ==> buf[..] == old(buf[..])
      ensures ok ==> buf[..offset] == old(buf[..offset])
      ensures ok ==> buf[offset + 1] == |data| && ExtAt(buf[..], offset) == Ext(kind, data)
    {
      if offset < format.size {
        return false;
      }
      buf[offset] := kind;
      buf[offset + 1] := |data|;
      var i := 0;
      while i < |data|
        invariant i <= |data|
        invariant forall j :: 0 <= j < offset ==> buf[j] == old(buf[j])
        invariant buf[offset] == kind && buf[offset + 1] == |data|
        invariant forall j :: 0 <= j < i ==> buf[offset + AODV_EXT_HDR_SIZE + j] == data[j]
      {
        buf[offset + AODV_EXT_HDR_SIZE + i] := data[i];
        i := i + 1;
      }
      ok := true;
      assert buf[offset + AODV_EXT_HDR_SIZE..offset + AODV_EXT_HDR_SIZE + |data|] == data;
      assert buf[..][offset + AODV_EXT_HDR_SIZE..offset + AODV_EXT_HDR_SIZE + |data|]
          == buf[offset + AODV_EXT_HDR_SIZE..offset + AODV_EXT_HDR_SIZE + |data|];
    }

    /** `rreq_add_udest` and `rrep_add_udest` */
    method AddUdest(data: seq<u8>)
      requires Valid() && |data| == format.udestSize
      requires ExtOffset(format, destCount) + AODV_EXT_HDR_SIZE + |data| <= AODV_MSG_MAX_SIZE
      modifies this`destCount, buf
      ensures Valid() && destCount == old(destCount) + 1
      ensures Extensions() == old(Extensions()) + [Ext(format.udestType, data)]
    {
      var end := ExtOffset(format, destCount);
      ghost var was := buf[..];
      OffsetGrows(format, destCount);
      var ok := AddExt(format.udestType, end, data);
      assert buf[..][..end] == buf[..end] == was[..end];
      ChainGrows(was, buf[..], format.size, end);
      destCount := destCount + 1;
    }

    method ReadExt(pos: nat) returns (ext: Ext)
      requires pos + 1 < buf.Length && pos + AODV_EXT_HDR_SIZE + buf[pos + 1] <= buf.Length
      ensures ext == ExtAt(buf[..], pos) && |ext.data| == buf[pos + 1]
    {
      ext := Ext(buf[pos], buf[pos + AODV_EXT_HDR_SIZE..pos + AODV_EXT_HDR_SIZE + buf[pos + 1]]);
      assert ext.data == buf[..][pos + AODV_EXT_HDR_SIZE..pos + AODV_EXT_HDR_SIZE + buf[pos + 1]];
    }

    /** The receive loop over a message of `len` bytes whose extensions fill it. */
    method Walk(len: nat) returns (visited: seq<Ext>)
      requires Fits(buf[..], format.size, len)
      ensures visited == Chain(buf[..], format.size, len)
    {
      hide Fits, Chain, ExtAt;
      ghost var b := buf[..];
      WalkStarts(b, format.size, len);
      visited := [];
      var extlen := 0;
      while len - extlen > format.size
        invariant format.size + extlen <= len && Fits(b, format.size + extlen, len)
        invariant visited + Chain(b, format.size + extlen, len) == Chain(b, format.size, len)
        decreases len - extlen
      {
        FirstLink(b, format.size + extlen, len);
        var ext := ReadExt(format.size + extlen);
        ghost var rest := Chain(b, format.size + extlen + AODV_EXT_HDR_SIZE + |ext.data|, len);
        assert visited + ([ext] + rest) == visited + [ext] + rest;
        visited := visited + [ext];
        extlen := extlen + AODV_EXT_HDR_SIZE + |ext.data|;
      }
    }
  }

  /**
   What a writer adds a reader finds: every destination, in order, with equal bytes. The writer is
   the loop of a local repair over the destinations it lost, the reader the receive loop.
   */
  method RoundTrip(format: Format, udests: seq<seq<u8>>) returns (visited: seq<Ext>)
    requires forall u <- udests :: |u| == format.udestSize
    requires ExtOffset(format, |udests| + 1) <= AODV_MSG_MAX_SIZE
    ensures |visited| == |udests|
    ensures forall i :: 0 <= i < |udests| ==> visited[i] == Ext(format.udestType, udests[i])
  {
    hide Fits, Chain, ExtOffset;
    OffsetGrows(format, |udests| + 1);
    var m := new Message(format);
    var k := 0;
    while k < |udests|
      invariant k <= |udests| && m.Valid() && m.format == format && m.destCount == k + 1 && fresh(m) && fresh(m.buf)
      invariant |m.Extensions()| == k
      invariant forall i :: 0 <= i < k ==> m.Extensions()[i] == Ext(format.udestType, udests[i])
    {
      OffsetGrows(format, k + 1);
      OffsetMonotone(format, k + 2, |udests| + 1);
      m.AddUdest(udests[k]);
      k := k + 1;
    }
    visited := m.Walk(ExtOffset(format, m.destCount));
  }

  lemma {:induction false} OffsetMonotone(f: Format, i: nat, j: nat)
    requires 1 <= i <= j
    ensures ExtOffset(f, i) <= ExtOffset(f, j)
  {
    if i < j {
      OffsetGrows(f, j - 1);
      OffsetMonotone(f, i, j - 1);
    }
  }

  /** How many destinations the buffer has room for. */
  lemma Capacity(n: nat)
    ensures ExtOffset(RREQ, n + 1) <= AODV_MSG_MAX_SIZE <==> n <= 56
    ensures ExtOffset(RREP, n + 1) <= AODV_MSG_MAX_SIZE <==> n <= 79
  {
  }
}
