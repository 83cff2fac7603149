/** The advertising-data walker `ad_parse`: a buffer of at most 255 octets
    holding AD structures in the format of the Bluetooth Core Specification,
    Vol 3, Part C, section 11 (a length octet, then that many octets: one
    AD type octet and the AD data). Each complete structure is handed to a
    callback that may stop the walk. */
module AdData {
  import opened Types

  /** The view `const struct bt_eir *eir` that the walker hands to its
      callback: `len` and `kind` are the structure's first two octets and
      `data` is every octet from `eir->data` to the end of the advertising
      buffer, so that a reader past the element's own payload is visible.
      The walker only hands out views with `1 <= len` whose payload lies
      inside the buffer. */
  datatype Element = Element(len: byte, kind: byte, data: seq<byte>)

  type Eir = e: Element | 1 <= e.len <= |e.data| + 1
    witness Element(1, 0, [])

  /** The element's AD data: `len - 1` octets after the type octet. */
  function Payload(e: Eir): (p: seq<byte>)
    ensures |p| == e.len - 1
  {
    e.data[..e.len - 1]
  }

  /** How a walk ended: the buffer was used up, a zero length octet
      terminated it, a structure did not fit ("AD malformed"), or the
      callback asked to stop. */
  datatype ParseEnd = Exhausted | Terminator | Malformed | Stopped

  /** Octets taken up by the visited elements: each is its length octet
      plus `len` more. */
  function Consumed(vs: seq<Eir>): (n: nat)
  {
    if vs == [] then 0 else 1 + vs[0].len + Consumed(vs[1..])
  }

  /** The first octets of `buf` hold a complete structure: a non-zero
      length octet, a type octet, and `len` octets in all after the length
      octet. */
  predicate Fits(buf: seq<byte>)
  {
    |buf| >= 2 && buf[0] != 0 && buf[0] + 1 <= |buf|
  }

  /** The view of the structure at the front of `buf`. */
  function First(buf: seq<byte>): (e: Eir)
    requires Fits(buf)
  {
    Element(buf[0], buf[1], buf[2..])
  }

  /** The elements `ad_parse` invokes its callback on, in order, and how it
      ends; the element on which the callback answered `false` is the last
      one visited. */
  function Walk(buf: seq<byte>, visit: Eir -> bool): (w: (seq<Eir>, ParseEnd))
    decreases |buf|
  {
    if |buf| == 0 then ([], Exhausted)
    else if buf[0] == 0 then ([], Terminator)
    else if !Fits(buf) then ([], Malformed)
    else if !visit(First(buf)) then ([First(buf)], Stopped)
    else
      var rest := Walk(buf[1 + buf[0]..], visit);
      ([First(buf)] + rest.0, rest.1)
  }

  /** The walk over the suffix at `p` when the octet there is a zero
      length: nothing more is visited. */
  lemma WalkAtTerminator(data: seq<byte>, p: nat, visit: Eir -> bool)
    requires p < |data| && data[p] == 0
    ensures Walk(data[p..], visit) == ([], Terminator)
  {
    assert data[p..][0] == data[p];
  }

  /** The walk over the suffix at `p` when the structure there does not
      fit: nothing more is visited. */
  lemma WalkAtMalformed(data: seq<byte>, p: nat, visit: Eir -> bool)
    requires p < |data| && data[p] != 0
    requires data[p] + 1 > |data| - p || |data| - p < 2
    ensures Walk(data[p..], visit) == ([], Malformed)
  {
    assert data[p..][0] == data[p];
  }

  /** The walk over the suffix at `p` when the callback stops at the
      structure there: it is the last element visited. */
  lemma WalkAtStop(data: seq<byte>, p: nat, visit: Eir -> bool)
    requires p < |data| && data[p] != 0 && data[p] + 1 <= |data| - p && |data| - p >= 2
    requires !visit(Element(data[p], data[p + 1], data[p + 2..]))
    ensures Walk(data[p..], visit) == ([Element(data[p], data[p + 1], data[p + 2..])], Stopped)
  {
    assert data[p..][0] == data[p] && data[p..][1] == data[p + 1] && data[p..][2..] == data[p + 2..];
  }

  /** One step of the walk at offset `p`, when the structure there fits
      and the callback answers `true`: the walk resumes `1 + len` octets
      further on. */
  lemma WalkStep(data: seq<byte>, p: nat, visit: Eir -> bool)
    requires p < |data| && data[p] != 0 && data[p] + 1 <= |data| - p && |data| - p >= 2
    requires visit(Element(data[p], data[p + 1], data[p + 2..]))
    ensures Walk(data[p..], visit).0 ==
              [Element(data[p], data[p + 1], data[p + 2..])] + Walk(data[p + 1 + data[p]..], visit).0
    ensures Walk(data[p..], visit).1 == Walk(data[p + 1 + data[p]..], visit).1
  {
    assert data[p..][0] == data[p] && data[p..][1] == data[p + 1] && data[p..][2..] == data[p + 2..];
    assert data[p..][1 + data[p]..] == data[p + 1 + data[p]..];
  }

  /** The loop invariant of `AdParse` survives one step. */
  lemma WalkAdvance(data: seq<byte>, p: nat, next: nat, eir: Eir, visit: Eir -> bool,
                    visited: seq<Eir>, whole: (seq<Eir>, ParseEnd))
    requires p < |data| && data[p] != 0 && data[p] + 1 <= |data| - p && |data| - p >= 2
    requires eir == Element(data[p], data[p + 1], data[p + 2..]) && visit(eir)
    requires next == p + 1 + data[p]
    requires whole.0 == visited + Walk(data[p..], visit).0 && whole.1 == Walk(data[p..], visit).1
    ensures whole.0 == (visited + [eir]) + Walk(data[next..], visit).0
    ensures whole.1 == Walk(data[next..], visit).1
  {
    WalkStep(data, p, visit);
    var rest := Walk(data[next..], visit).0;
    assert visited + ([eir] + rest) == (visited + [eir]) + rest;
  }

  /** `ad_parse`: advances a cursor `p` through `data` while `len` octets
      remain. It returns the elements it invoked `visit` on and how it
      ended; the result is exactly `Walk`. */
  method AdParse(data: seq<byte>, visit: Eir -> bool) returns (visited: seq<Eir>, end: ParseEnd)
    requires |data| <= 255
    ensures (visited, end) == Walk(data, visit)
  {
    var p: nat := 0;
    var len: nat := |data|;
    visited := [];
    ghost var whole := Walk(data, visit);
    ghost var ahead := whole;
    assert data[p..] == data;
    while len > 0
      invariant p + len == |data|
      invariant p == Consumed(visited)
      invariant ahead == Walk(data[p..], visit)
      invariant whole.0 == visited + ahead.0 && whole.1 == ahead.1
    {
      var eirLen := data[p];
      if eirLen == 0 {
        WalkAtTerminator(data, p, visit);
        assert visited + [] == visited;
        return visited, Terminator;
      }
      if eirLen + 1 > len || len < 2 {
        WalkAtMalformed(data, p, visit);
        assert visited + [] == visited;
        return visited, Malformed;
      }
      var eir: Eir := Element(eirLen, data[p + 1], data[p + 2..]);
      if !visit(eir) {
        WalkAtStop(data, p, visit);
        return visited + [eir], Stopped;
      }
      var next := p + 1 + eirLen;
      WalkAdvance(data, p, next, eir, visit, visited, whole);
      ConsumedAppend(visited, eir);
      visited := visited + [eir];
      p, len := next, len - (1 + eirLen);
      ahead := Walk(data[p..], visit);
    }
    assert data[p..] == [];
    assert ahead == ([], Exhausted);
    assert visited + [] == visited;
    return visited, Exhausted;
  }

  lemma {:induction false} ConsumedAppend(vs: seq<Eir>, e: Eir)
    ensures Consumed(vs + [e]) == Consumed(vs) + 1 + e.len
  {
    if vs == [] {
      assert [] + [e] == [e];
      assert [e][1..] == [];
    } else {
      assert (vs + [e])[1..] == vs[1..] + [e];
      ConsumedAppend(vs[1..], e);
    }
  }

  /** Element `e` sits at offset `o` of `buf`: its length octet and type
      octet are there, its `1 + len` octets fit in the buffer, and its data
      view starts right after the type octet. */
  ghost predicate FramedAt(buf: seq<byte>, o: nat, e: Eir)
  {
    o + 1 + e.len <= |buf| && buf[o] == e.len && buf[o + 1] == e.kind && e.data == buf[o + 2..]
  }

  /** The walk at a buffer whose front structure fits and is accepted:
      that element, then the walk after it. */
  lemma WalkUnfold(buf: seq<byte>, visit: Eir -> bool)
    requires Fits(buf) && visit(First(buf))
    ensures Walk(buf, visit).0 == [First(buf)] + Walk(buf[1 + buf[0]..], visit).0
    ensures Walk(buf, visit).1 == Walk(buf[1 + buf[0]..], visit).1
  {
  }

  /** The elements `vs` lie back to back in `buf` from offset `o` on, and
      the last one ends inside the buffer. */
  ghost predicate FramedFrom(buf: seq<byte>, o: nat, vs: seq<Eir>)
    decreases |vs|
  {
    if vs == [] then o <= |buf|
    else FramedAt(buf, o, vs[0]) && FramedFrom(buf, o + 1 + vs[0].len, vs[1..])
  }

  /** Elements framed back to back take up what `Consumed` counts. */
  lemma {:induction false} FramedFromConsumed(buf: seq<byte>, o: nat, vs: seq<Eir>)
    requires FramedFrom(buf, o, vs)
    ensures o + Consumed(vs) <= |buf|
    decreases |vs|
  {
    if vs != [] {
      FramedFromConsumed(buf, o + 1 + vs[0].len, vs[1..]);
    }
  }

  /** Elements framed in a suffix of `buf` are framed in `buf` at the
      shifted offset. */
  lemma {:induction false} FramedFromShift(buf: seq<byte>, n: nat, o: nat, vs: seq<Eir>)
    requires n <= |buf| && FramedFrom(buf[n..], o, vs)
    ensures FramedFrom(buf, n + o, vs)
    decreases |vs|
  {
    if vs != [] {
      assert buf[n..][o + 2..] == buf[n + o + 2..];
      FramedFromShift(buf, n, o + 1 + vs[0].len, vs[1..]);
    }
  }

  /** Framing: the walk visits elements that lie back to back from the
      start of the buffer, each fitting in what remains of it, so the walk
      never consumes more than the buffer holds. */
  lemma {:induction false} WalkFrames(buf: seq<byte>, visit: Eir -> bool)
    ensures FramedFrom(buf, 0, Walk(buf, visit).0)
    ensures Consumed(Walk(buf, visit).0) <= |buf|
    decreases |buf|
  {
    var vs := Walk(buf, visit).0;
    if |buf| == 0 || buf[0] == 0 || !Fits(buf) {
      assert vs == [];
    } else if !visit(First(buf)) {
      var e := First(buf);
      assert buf[2..] == buf[0 + 2..];
      assert vs == [e] && vs[1..] == [];
      assert FramedFrom(buf, 0, vs);
      FramedFromConsumed(buf, 0, vs);
    } else {
      var n := 1 + buf[0] as int;
      var rest := Walk(buf[n..], visit).0;
      WalkUnfold(buf, visit);
      WalkFrames(buf[n..], visit);
      FramedFromShift(buf, n, 0, rest);
      assert buf[2..] == buf[0 + 2..];
      assert vs[1..] == rest;
      assert FramedFrom(buf, 0, vs);
      FramedFromConsumed(buf, 0, vs);
    }
  }

  /** A walk that consumed the first `o` octets of `buf` ended as `end`
      says: a used-up buffer is consumed exactly; a zero length octet, or a
      structure that does not fit, is the first unconsumed octet. */
  ghost predicate EndsAt(buf: seq<byte>, o: nat, end: ParseEnd)
  {
    (end == Exhausted ==> o == |buf|) &&
    (end == Terminator ==> o < |buf| && buf[o] == 0) &&
    (end == Malformed ==> o < |buf| && buf[o] != 0 && !Fits(buf[o..]))
  }

  lemma EndsAtShift(buf: seq<byte>, n: nat, o: nat, end: ParseEnd)
    requires n <= |buf| && EndsAt(buf[n..], o, end)
    ensures EndsAt(buf, n + o, end)
  {
    if o < |buf| - n {
      assert buf[n..][o] == buf[n + o] && buf[n..][o..] == buf[n + o..];
    }
  }

  /** How the walk ends: a used-up buffer is consumed exactly; a zero
      length octet, or a structure that does not fit, ends the walk at the
      first unconsumed octet, and no callback is invoked on it. */
  lemma {:induction false} WalkEnds(buf: seq<byte>, visit: Eir -> bool)
    ensures EndsAt(buf, Consumed(Walk(buf, visit).0), Walk(buf, visit).1)
    decreases |buf|
  {
    if |buf| == 0 || buf[0] == 0 || !Fits(buf) {
      assert buf[0..] == buf;
    } else if visit(First(buf)) {
      var n := 1 + buf[0] as int;
      var rest := Walk(buf[n..], visit).0;
      WalkUnfold(buf, visit);
      WalkEnds(buf[n..], visit);
      EndsAtShift(buf, n, Consumed(rest), Walk(buf[n..], visit).1);
      assert ([First(buf)] + rest)[1..] == rest;
    }
  }

  /** What the callback answered: `true` on every visited element except
      the last, and on the last too unless the callback stopped the walk. */
  lemma {:induction false} WalkAnswers(buf: seq<byte>, visit: Eir -> bool)
    ensures Walk(buf, visit).1 == Stopped <==>
              |Walk(buf, visit).0| > 0 && !visit(Walk(buf, visit).0[|Walk(buf, visit).0| - 1])
    ensures forall k :: 0 <= k < |Walk(buf, visit).0| - 1 ==> visit(Walk(buf, visit).0[k])
    decreases |buf|
  {
    if |buf| == 0 || buf[0] == 0 || !Fits(buf) {
    } else if visit(First(buf)) {
      var e := First(buf);
      var tail := buf[1 + buf[0]..];
      var rest := Walk(tail, visit).0;
      WalkAnswers(tail, visit);
      var vs := Walk(buf, visit).0;
      assert vs == [e] + rest;
      forall k | 0 <= k < |vs| - 1
        ensures visit(vs[k])
      {
        if k > 0 { assert vs[k] == rest[k - 1]; }
      }
      if |rest| > 0 {
        assert vs[|vs| - 1] == rest[|rest| - 1];
      }
    }
  }

  /** One AD structure as the specification describes it: an AD type and
      its AD data. */
  datatype Field = Field(kind: byte, payload: seq<byte>)

  /** Fields whose length octet (payload plus type octet) fits in a byte. */
  ghost predicate Encodable(fs: seq<Field>)
  {
    forall k :: 0 <= k < |fs| ==> |fs[k].payload| <= 254
  }

  /** The octets of a sequence of AD structures, laid end to end. */
  function Encode(fs: seq<Field>): (buf: seq<byte>)
    requires Encodable(fs)
  {
    if fs == [] then []
    else [|fs[0].payload| + 1, fs[0].kind] + fs[0].payload + Encode(fs[1..])
  }

  /** The first encoded structure, followed by anything, is the element at
      the front of the buffer, and the walk resumes after it. */
  lemma EncodeFront(fs: seq<Field>, tail: seq<byte>)
    requires Encodable(fs) && fs != []
    ensures Fits(Encode(fs) + tail)
    ensures First(Encode(fs) + tail).kind == fs[0].kind
    ensures Payload(First(Encode(fs) + tail)) == fs[0].payload
    ensures (Encode(fs) + tail)[1 + (Encode(fs) + tail)[0]..] == Encode(fs[1..]) + tail
  {
    var f := fs[0];
    EncodeCons(fs, tail);
    StructureFront(Encode(fs) + tail, f.kind, f.payload, Encode(fs[1..]) + tail);
  }

  lemma EncodeCons(fs: seq<Field>, tail: seq<byte>)
    requires Encodable(fs) && fs != []
    ensures Encode(fs) + tail == [|fs[0].payload| + 1, fs[0].kind] + fs[0].payload + (Encode(fs[1..]) + tail)
  {
  }

  lemma StructureFront(buf: seq<byte>, kind: byte, payload: seq<byte>, rest: seq<byte>)
    requires |payload| <= 254
    requires buf == [|payload| + 1, kind] + payload + rest
    ensures Fits(buf) && First(buf).kind == kind && Payload(First(buf)) == payload
    ensures buf[1 + buf[0]..] == rest
  {
    assert buf[2..] == payload + rest;
    assert buf[2..][..|payload|] == payload;
  }

  /** Encoded structures followed by any octets: with a callback that never
      stops, the walk visits one element per structure, in order, with the
      structure's type and payload, and then goes on exactly as it would on
      the trailing octets alone. */
  lemma {:induction false} WalkEncoded(fs: seq<Field>, tail: seq<byte>, visit: Eir -> bool)
    requires Encodable(fs)
    requires forall e: Eir :: visit(e)
    ensures Walk(Encode(fs) + tail, visit).1 == Walk(tail, visit).1
    ensures |Walk(Encode(fs) + tail, visit).0| == |fs| + |Walk(tail, visit).0|
    ensures forall k :: 0 <= k < |fs| ==>
              Walk(Encode(fs) + tail, visit).0[k].kind == fs[k].kind &&
              Payload(Walk(Encode(fs) + tail, visit).0[k]) == fs[k].payload
    ensures Walk(Encode(fs) + tail, visit).0[|fs|..] == Walk(tail, visit).0
  {
    if fs == [] {
      assert Encode(fs) + tail == tail;
      assert Walk(tail, visit).0[0..] == Walk(tail, visit).0;
    } else {
      var buf := Encode(fs) + tail;
      var rest := Encode(fs[1..]) + tail;
      EncodeFront(fs, tail);
      WalkEncoded(fs[1..], tail, visit);
      var e := First(buf);
      assert visit(e);
      var vs := Walk(buf, visit).0;
      var rs := Walk(rest, visit).0;
      assert vs == [e] + rs;
      forall k | 0 <= k < |fs|
        ensures vs[k].kind == fs[k].kind && Payload(vs[k]) == fs[k].payload
      {
        if k > 0 { assert vs[k] == rs[k - 1]; }
      }
      assert vs[|fs|..] == rs[|fs| - 1..];
    }
  }

  /** A well-formed advertising buffer: every structure is visited exactly
      once, in buffer order, and the walk ends without complaint. */
  lemma WalkWellFormed(fs: seq<Field>, visit: Eir -> bool)
    requires Encodable(fs)
    requires forall e: Eir :: visit(e)
    ensures var (vs, end) := Walk(Encode(fs), visit);
      end == Exhausted && |vs| == |fs| &&
      forall k :: 0 <= k < |fs| ==> vs[k].kind == fs[k].kind && Payload(vs[k]) == fs[k].payload
  {
    WalkEncoded(fs, [], visit);
    assert Encode(fs) + [] == Encode(fs);
  }

  /** Structures followed by a zero length octet: the walk visits the
      structures and ends at the terminator, whatever follows it. */
  lemma WalkTerminated(fs: seq<Field>, junk: seq<byte>, visit: Eir -> bool)
    requires Encodable(fs)
    requires forall e: Eir :: visit(e)
    ensures var (vs, end) := Walk(Encode(fs) + ([0] + junk), visit);
      end == Terminator && |vs| == |fs| &&
      forall k :: 0 <= k < |fs| ==> vs[k].kind == fs[k].kind && Payload(vs[k]) == fs[k].payload
  {
    WalkEncoded(fs, [0] + junk, visit);
  }

  /** Structures followed by one whose declared length overruns the buffer:
      the walk visits the complete structures, reports the buffer
      malformed, and never hands out the truncated one. */
  lemma WalkTruncated(fs: seq<Field>, declared: byte, partial: seq<byte>, visit: Eir -> bool)
    requires Encodable(fs)
    requires forall e: Eir :: visit(e)
    requires declared > |partial|
    ensures var (vs, end) := Walk(Encode(fs) + ([declared] + partial), visit);
      end == Malformed && |vs| == |fs| &&
      forall k :: 0 <= k < |fs| ==> vs[k].kind == fs[k].kind && Payload(vs[k]) == fs[k].payload
  {
    WalkEncoded(fs, [declared] + partial, visit);
  }
}
