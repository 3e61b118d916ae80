/**
 Domain names in DNS messages: the decoder's loop against the recursive definition of compressed names
 in section 4.1.4 of RFC 1035, and against the encoder of the question.
 */
module DnsNames {
  import opened Sets
  import opened Wrappers

  type Byte = b: int | 0 <= b < 256 witness 0

  /** The labels of a name, and the offset just past it in the message. */
  datatype Name = Name(labels: seq<seq<Byte>>, end: nat)

  const MAX_STEPS: nat := 128

  /** What stands at an offset: the end of a name, a label, a pointer, or nothing valid. */
  datatype Node = Zero | Label(text: seq<Byte>, next: nat) | Pointer(target: nat) | Invalid

  predicate Ascii(text: seq<Byte>) {
    forall i | 0 <= i < |text| :: text[i] < 128
  }

  /** The top two bits of the length byte: 11 a pointer, 00 a label, 01 and 10 reserved. */
  function NodeAt(data: seq<Byte>, offset: nat): Node {
    if offset >= |data| then Invalid
    else
      var length: int := data[offset];
      if length >= 192 then
        if offset + 1 < |data| then Pointer((length - 192) * 256 + data[offset + 1] as int) else Invalid
      else if length >= 64 || offset + 1 + length > |data| then Invalid
      else if length == 0 then Zero
      else if Ascii(data[offset + 1..offset + 1 + length])
      then Label(data[offset + 1..offset + 1 + length], offset + 1 + length)
      else Invalid
  }

  /** The bit tests of the decoder are these comparisons. */
  lemma BitTests(length: bv16, low: bv16)
    requires length < 256 && low < 256
    ensures length & 0xC0 == 0xC0 <==> length >= 192
    ensures length & 0xC0 != 0 <==> length >= 64
    ensures length >= 192 ==> ((length & 0x3F) << 8) | low == (length - 192) * 256 + low
    ensures length & 0xC0 == (length / 64) * 64 && length & 0x3F == length % 64
  {
  }

  /**
   What the length byte says: with both top bits set it is a pointer, to the other fourteen bits of it and
   the next byte; with neither, it is the length of a label of ASCII bytes, or the end. Nothing else is valid.
   */
  lemma NodeMeans(data: seq<Byte>, offset: nat)
    requires offset < |data|
    ensures
      var length: int := data[offset];
      var top, low := length / 64, length % 64;
      match NodeAt(data, offset)
      case Pointer(target) => top == 3 && offset + 1 < |data| && target == low * 256 + data[offset + 1] as int
      case Zero => top == 0 && low == 0
      case Label(text, next) =>
        && top == 0 && 0 < low == |text| && next == offset + 1 + low <= |data|
        && text == data[offset + 1..next] && forall i | 0 <= i < |text| :: text[i] < 128
      case Invalid =>
        || top == 1 || top == 2 || (top == 3 && offset + 1 == |data|)
        || (top == 0 && (offset + 1 + low > |data| || exists i | offset < i <= offset + low :: data[i] >= 128))
  {
    var length: int := data[offset];
    if 0 < length < 64 && offset + length < |data| {
      var text := data[offset + 1..offset + 1 + length];
      assert forall i | 0 <= i < |text| :: text[i] == data[offset + 1 + i];
    }
  }

  /** The name at an offset, by the standard's grammar, read in at most `steps` nodes. */
  function NameAt(data: seq<Byte>, offset: nat, steps: nat): Option<Name>
    decreases steps
  {
    if steps == 0 then None
    else match NodeAt(data, offset)
      case Invalid => None
      case Zero => Some(Name([], offset + 1))
      case Label(text, next) =>
        var rest := NameAt(data, next, steps - 1);
        if rest.None? then None else Some(Name([text] + rest.value.labels, rest.value.end))
      case Pointer(target) =>
        var rest := NameAt(data, target, steps - 1);
        if rest.None? then None else Some(Name(rest.value.labels, offset + 2))
  }

  // ---------------------------------------------------------------- the chain of offsets

  function Next(data: seq<Byte>, offset: nat): Option<nat> {
    match NodeAt(data, offset)
    case Label(_, next) => Some(next)
    case Pointer(target) => Some(target)
    case Zero => None
    case Invalid => None
  }

  function After(data: seq<Byte>, offset: nat, k: nat): Option<nat>
    decreases k
  {
    if k == 0 then Some(offset)
    else if Next(data, offset).None? then None
    else After(data, Next(data, offset).value, k - 1)
  }

  ghost predicate Reaches(data: seq<Byte>, from: nat, offset: nat) {
    exists k: nat :: k > 0 && After(data, from, k) == Some(offset)
  }

  lemma {:induction false} AfterNext(data: seq<Byte>, offset: nat, k: nat)
    requires After(data, offset, k).Some?
    ensures After(data, offset, k + 1) == Next(data, After(data, offset, k).value)
    decreases k
  {
    hide Next;
    if k > 0 {
      AfterNext(data, Next(data, offset).value, k - 1);
    } else if Next(data, offset).Some? {
      assert After(data, Next(data, offset).value, 0) == Next(data, offset);
    }
  }

  lemma {:induction false} NameAlongChain(data: seq<Byte>, offset: nat, k: nat, steps: nat)
    requires After(data, offset, k).Some? && NameAt(data, offset, steps).Some?
    ensures k < steps && NameAt(data, After(data, offset, k).value, steps - k).Some?
    decreases k
  {
    if k > 0 {
      NameAlongChain(data, Next(data, offset).value, k - 1, steps - 1);
    }
  }

  /** An offset that is reached again from itself has no name, in however many steps. */
  lemma {:induction false} RevisitHasNoName(data: seq<Byte>, offset: nat, k: nat, steps: nat)
    requires k > 0 && After(data, offset, k) == Some(offset)
    ensures NameAt(data, offset, steps).None?
    decreases steps
  {
    if NameAt(data, offset, steps).Some? {
      NameAlongChain(data, offset, k, steps);
      RevisitHasNoName(data, offset, k, steps - k);
    }
  }

  /** More steps never change a name that is found. */
  lemma {:induction false} MoreStepsAgree(data: seq<Byte>, offset: nat, steps: nat, more: nat)
    requires steps <= more && NameAt(data, offset, steps).Some?
    ensures NameAt(data, offset, more) == NameAt(data, offset, steps)
    decreases steps
  {
    if Next(data, offset).Some? {
      MoreStepsAgree(data, Next(data, offset).value, steps - 1, more - 1);
    }
  }

  // ---------------------------------------------------------------- the decoder

  function Join(labels: seq<seq<Byte>>): seq<Byte> {
    if labels == [] then []
    else if |labels| == 1 then labels[0]
    else labels[0] + ['.' as int] + Join(labels[1..])
  }

  /** The decoder's result: the labels joined by dots, and the offset past the name. */
  datatype Decoded = Decoded(name: seq<Byte>, end: nat)

  function Joined(name: Option<Name>): Option<Decoded> {
    if name.None? then None else Some(Decoded(Join(name.value.labels), name.value.end))
  }

  /** What the loop will return, given what it has gathered. */
  function Gathered(labels: seq<seq<Byte>>, end: Option<nat>, rest: Option<Name>): Option<Name> {
    if rest.None? then None
    else Some(Name(labels + rest.value.labels, if end.Some? then end.value else rest.value.end))
  }

  lemma GatherStep(data: seq<Byte>, offset: nat, steps: nat, labels: seq<seq<Byte>>, end: Option<nat>)
    requires steps > 0
    ensures
      var all := Gathered(labels, end, NameAt(data, offset, steps));
      match NodeAt(data, offset)
      case Invalid => all.None?
      case Zero => all == Some(Name(labels, if end.Some? then end.value else offset + 1))
      case Label(text, next) => all == Gathered(labels + [text], end, NameAt(data, next, steps - 1))
      case Pointer(target) =>
        all == Gathered(labels, if end.Some? then end else Some(offset + 2), NameAt(data, target, steps - 1))
  {
    match NodeAt(data, offset)
    case Label(text, next) =>
      var rest := NameAt(data, next, steps - 1);
      if rest.Some? {
        assert labels + ([text] + rest.value.labels) == labels + [text] + rest.value.labels;
      }
    case Zero => assert labels + [] == labels;
    case _ =>
  }

  lemma RevisitFails(data: seq<Byte>, offset: nat, steps: nat, labels: seq<seq<Byte>>, end: Option<nat>)
    requires Reaches(data, offset, offset)
    ensures Gathered(labels, end, NameAt(data, offset, steps)).None?
  {
    var k: nat :| k > 0 && After(data, offset, k) == Some(offset);
    RevisitHasNoName(data, offset, k, steps);
  }

  lemma NoStepsLeft(data: seq<Byte>, offset: nat, labels: seq<seq<Byte>>, end: Option<nat>)
    ensures Gathered(labels, end, NameAt(data, offset, 0)).None?
  {
  }

  lemma NothingGathered(name: Option<Name>)
    ensures Gathered([], None, name) == name
  {
    if name.Some? {
      assert [] + name.value.labels == name.value.labels;
    }
  }

  /** `_name`: the loop accepts exactly what the grammar gives in 128 nodes, although it also refuses to revisit. */
  method DecodeName(data: seq<Byte>, start: nat) returns (name: Option<Decoded>)
    ensures name == Joined(NameAt(data, start, MAX_STEPS))
  {
    var labels: seq<seq<Byte>> := [];
    var visited: set<nat> := {};
    var end: Option<nat> := None;
    var offset: nat := start;
    NothingGathered(NameAt(data, start, MAX_STEPS));
    hide NameAt, Reaches, After, Gathered, Join;
    for step := 0 to MAX_STEPS
      invariant NameAt(data, start, MAX_STEPS) == Gathered(labels, end, NameAt(data, offset, MAX_STEPS - step))
      invariant forall v | v in visited :: Reaches(data, v, offset)
    {
      GatherStep(data, offset, MAX_STEPS - step, labels, end);
      if offset in visited {
        RevisitFails(data, offset, MAX_STEPS - step, labels, end);
        return None;
      }
      if offset >= |data| {
        return None;
      }
      if Next(data, offset).Some? {
        ChainGrows(data, visited, offset);
      }
      visited := visited + {offset};
      var length: int := data[offset];
      if length >= 192 {
        if offset + 1 >= |data| {
          return None;
        }
        if end.None? {
          end := Some(offset + 2);
        }
        offset := (length - 192) * 256 + data[offset + 1];
        continue;
      }
      if length >= 64 || offset + 1 + length > |data| {
        return None;
      }
      if length == 0 {
        return Some(Decoded(Join(labels), if end.Some? then end.value else offset + 1));
      }
      var text := data[offset + 1..offset + 1 + length];
      if !Ascii(text) {
        return None;
      }
      labels := labels + [text];
      offset := offset + 1 + length;
    }
    NoStepsLeft(data, offset, labels, end);
    return None;
  }

  lemma ChainGrows(data: seq<Byte>, visited: set<nat>, offset: nat)
    requires Next(data, offset).Some? && forall v | v in visited :: Reaches(data, v, offset)
    ensures forall v | v in visited + {offset} :: Reaches(data, v, Next(data, offset).value)
  {
    forall v | v in visited + {offset}
      ensures Reaches(data, v, Next(data, offset).value)
    {
      if v in visited {
        var k: nat :| k > 0 && After(data, v, k) == Some(offset);
        AfterNext(data, v, k);
        assert After(data, v, k + 1) == Next(data, offset);
      } else {
        AfterNext(data, offset, 0);
        assert After(data, offset, 1) == Next(data, offset);
      }
    }
  }

  // ---------------------------------------------------------------- the limit of 128 nodes

  function Offsets(n: nat): (offsets: set<nat>)
    ensures |offsets| == n && forall x: nat :: x in offsets <==> x < n
  {
    if n == 0 then {} else Offsets(n - 1) + {n - 1}
  }

  lemma NameContinues(data: seq<Byte>, offset: nat, steps: nat)
    ensures NameAt(data, offset, steps).Some? ==> offset < |data| && steps > 0
    ensures NameAt(data, offset, steps).Some? && Next(data, offset).Some? ==>
      NameAt(data, Next(data, offset).value, steps - 1).Some?
    ensures NameAt(data, offset, steps).Some? && Next(data, offset).None? ==>
      forall m: nat :: m > 0 ==> NameAt(data, offset, m).Some?
    ensures forall m: nat :: Next(data, offset).Some? && NameAt(data, Next(data, offset).value, m).Some? ==>
      NameAt(data, offset, m + 1).Some?
  {
  }

  lemma {:induction false} NodesAreFew(data: seq<Byte>, offset: nat, steps: nat, visited: set<nat>)
    requires NameAt(data, offset, steps).Some?
    requires forall v | v in visited :: v < |data| && Reaches(data, v, offset)
    ensures |visited| < |data| && NameAt(data, offset, |data| - |visited|).Some?
    decreases steps
  {
    NameContinues(data, offset, steps);
    hide NameAt, Next, Reaches;
    if offset in visited {
      NotRevisited(data, offset, steps);
      assert false;
    }
    SubsetIsSmaller(visited + {offset}, Offsets(|data|));
    if Next(data, offset).Some? {
      ChainGrows(data, visited, offset);
      NodesAreFew(data, Next(data, offset).value, steps - 1, visited + {offset});
      assert |visited + {offset}| == |visited| + 1;
    }
  }

  lemma NotRevisited(data: seq<Byte>, offset: nat, steps: nat)
    requires NameAt(data, offset, steps).Some?
    ensures !Reaches(data, offset, offset)
  {
    if Reaches(data, offset, offset) {
      var k: nat :| k > 0 && After(data, offset, k) == Some(offset);
      RevisitHasNoName(data, offset, k, steps);
    }
  }

  /** No name has more nodes than the message has bytes: up to 128 bytes, the limit of 128 nodes rejects nothing. */
  lemma LimitIsForLongMessages(data: seq<Byte>, offset: nat, steps: nat)
    requires |data| <= MAX_STEPS <= steps
    ensures NameAt(data, offset, MAX_STEPS) == NameAt(data, offset, steps)
  {
    if NameAt(data, offset, steps).Some? {
      NodesAreFew(data, offset, steps, {});
      MoreStepsAgree(data, offset, |data|, MAX_STEPS);
    }
    if NameAt(data, offset, MAX_STEPS).Some? {
      MoreStepsAgree(data, offset, MAX_STEPS, steps);
    }
  }

  // ---------------------------------------------------------------- the encoder

  /** What the encoder takes: ASCII labels whose length fits a byte. */
  predicate Encodable(labels: seq<seq<Byte>>) {
    forall i | 0 <= i < |labels| :: |labels[i]| < 256 && Ascii(labels[i])
  }

  /** The question encoder of `query_mdns_hostname`. */
  function Encode(labels: seq<seq<Byte>>): (e: seq<Byte>)
    requires Encodable(labels)
    ensures |e| > 0
  {
    if labels == [] then [0] else [|labels[0]| as Byte] + labels[0] + Encode(labels[1..])
  }

  predicate ProperLabels(labels: seq<seq<Byte>>) {
    forall i | 0 <= i < |labels| :: 0 < |labels[i]| < 64
  }

  predicate Holds(data: seq<Byte>, offset: nat, part: seq<Byte>) {
    offset + |part| <= |data| && forall i | 0 <= i < |part| :: data[offset + i] == part[i]
  }

  lemma HoldsParts(data: seq<Byte>, offset: nat, x: Byte, text: seq<Byte>, rest: seq<Byte>)
    requires Holds(data, offset, [x] + text + rest)
    ensures offset + 1 + |text| <= |data| && data[offset] == x && data[offset + 1..offset + 1 + |text|] == text
    ensures Holds(data, offset + 1 + |text|, rest)
  {
    var all := [x] + text + rest;
    assert data[offset + 0] == all[0];
    forall i | 0 <= i < |text|
      ensures data[offset + 1 + i] == text[i]
    {
      assert data[offset + (1 + i)] == all[1 + i];
    }
    forall i | 0 <= i < |rest|
      ensures data[offset + 1 + |text| + i] == rest[i]
    {
      assert data[offset + (1 + |text| + i)] == all[1 + |text| + i];
    }
  }

  /** At the encoding of a name: its first label, then the encoding of the others. */
  lemma HoldsFirstLabel(data: seq<Byte>, offset: nat, labels: seq<seq<Byte>>)
    requires Encodable(labels) && labels != [] && Holds(data, offset, Encode(labels))
    ensures
      var n := |labels[0]|;
      && |Encode(labels)| == 1 + n + |Encode(labels[1..])| && offset + 1 + n < |data|
      && data[offset] == n && data[offset + 1..offset + 1 + n] == labels[0]
      && Holds(data, offset + 1 + n, Encode(labels[1..]))
  {
    hide Holds;
    var n, rest := |labels[0]|, Encode(labels[1..]);
    assert Encode(labels) == [n as Byte] + labels[0] + rest;
    HoldsParts(data, offset, n as Byte, labels[0], rest);
    HoldsFits(data, offset + 1 + n, rest);
  }

  lemma HoldsFits(data: seq<Byte>, offset: nat, part: seq<Byte>)
    requires Holds(data, offset, part)
    ensures offset + |part| <= |data|
  {
  }

  lemma {:induction false} DecodesEncoded(data: seq<Byte>, offset: nat, labels: seq<seq<Byte>>, steps: nat)
    requires Encodable(labels) && Holds(data, offset, Encode(labels))
    requires ProperLabels(labels) && |labels| < steps
    ensures NameAt(data, offset, steps) == Some(Name(labels, offset + |Encode(labels)|))
    decreases |labels|
  {
    if labels == [] {
      assert data[offset + 0] == Encode([])[0];
    } else {
      HoldsFirstLabel(data, offset, labels);
      FirstNode(data, offset, labels);
      hide Holds, Encode, NodeAt;
      DecodesEncoded(data, offset + 1 + |labels[0]|, labels[1..], steps - 1);
      assert [labels[0]] + labels[1..] == labels;
    }
  }

  lemma {:induction false} DecodedIsProper(data: seq<Byte>, offset: nat, labels: seq<seq<Byte>>, steps: nat)
    requires Encodable(labels) && Holds(data, offset, Encode(labels))
    requires NameAt(data, offset, steps) == Some(Name(labels, offset + |Encode(labels)|))
    ensures ProperLabels(labels) && |labels| < steps
    decreases |labels|
  {
    hide Holds, Encode, NodeAt, NameAt, Next;
    NameContinues(data, offset, steps);
    if labels != [] {
      HoldsFirstLabel(data, offset, labels);
      FirstNode(data, offset, labels);
      NameBehind(data, offset, labels, offset + |Encode(labels)|, steps);
      DecodedIsProper(data, offset + 1 + |labels[0]|, labels[1..], steps - 1);
    }
  }

  lemma NameBehind(data: seq<Byte>, offset: nat, labels: seq<seq<Byte>>, end: nat, steps: nat)
    requires labels != [] && NameAt(data, offset, steps) == Some(Name(labels, end))
    ensures steps > 0
    ensures
      match NodeAt(data, offset)
      case Zero => false
      case Label(text, next) => text == labels[0] && NameAt(data, next, steps - 1) == Some(Name(labels[1..], end))
      case Pointer(_) => end == offset + 2
      case Invalid => false
  {
    match NodeAt(data, offset)
    case Label(text, next) =>
      var rest := NameAt(data, next, steps - 1);
      assert rest.value.labels == ([text] + rest.value.labels)[1..];
    case _ =>
  }

  lemma FirstNode(data: seq<Byte>, offset: nat, labels: seq<seq<Byte>>)
    requires labels != [] && offset + 1 + |labels[0]| < |data| && data[offset] == |labels[0]| && Ascii(labels[0])
    requires data[offset + 1..offset + 1 + |labels[0]|] == labels[0]
    ensures
      var n := |labels[0]|;
      match NodeAt(data, offset)
      case Zero => n == 0
      case Label(text, next) => 0 < n < 64 && text == labels[0] && next == offset + 1 + n
      case Pointer(_) => n >= 192
      case Invalid => 64 <= n < 192
  {
  }

  lemma HoldsInside(before: seq<Byte>, part: seq<Byte>, after: seq<Byte>)
    ensures Holds(before + part + after, |before|, part)
  {
  }

  /**
   Anywhere in any message, decoding inverts encoding exactly when every label has 1 to 63 bytes and there
   are at most 127 of them.
   */
  lemma DecodeInvertsEncodeIff(before: seq<Byte>, labels: seq<seq<Byte>>, after: seq<Byte>)
    requires Encodable(labels)
    ensures
      var data := before + Encode(labels) + after;
      NameAt(data, |before|, MAX_STEPS) == Some(Name(labels, |before| + |Encode(labels)|)) <==>
      ProperLabels(labels) && |labels| <= 127
  {
    hide Encode, NameAt, Holds;
    var data := before + Encode(labels) + after;
    HoldsInside(before, Encode(labels), after);
    if ProperLabels(labels) && |labels| <= 127 {
      DecodesEncoded(data, |before|, labels, MAX_STEPS);
    }
    if NameAt(data, |before|, MAX_STEPS) == Some(Name(labels, |before| + |Encode(labels)|)) {
      DecodedIsProper(data, |before|, labels, MAX_STEPS);
    }
  }

  // ---------------------------------------------------------------- compressed names

  /** The labels as the encoder writes them, without an end. */
  function Front(labels: seq<seq<Byte>>): seq<Byte>
    requires Encodable(labels)
  {
    if labels == [] then [] else [|labels[0]| as Byte] + labels[0] + Front(labels[1..])
  }

  /** A pointer to an offset of fourteen bits. */
  function PointTo(target: nat): (p: seq<Byte>)
    requires target < 16384
  {
    [192 + target / 256, target % 256]
  }

  lemma PointerIsRead(data: seq<Byte>, offset: nat, target: nat)
    requires target < 16384 && Holds(data, offset, PointTo(target))
    ensures NodeAt(data, offset) == Pointer(target)
  {
    assert data[offset + 0] == PointTo(target)[0] && data[offset + 1] == PointTo(target)[1];
  }

  lemma LabelIsRead(data: seq<Byte>, offset: nat, text: seq<Byte>, rest: seq<Byte>)
    requires 0 < |text| < 64 && Ascii(text) && Holds(data, offset, [|text| as Byte] + text + rest)
    ensures NodeAt(data, offset) == Label(text, offset + 1 + |text|) && Holds(data, offset + 1 + |text|, rest)
  {
    HoldsParts(data, offset, |text| as Byte, text, rest);
  }

  /**
   Section 4.1.4 of RFC 1035: labels followed by a pointer are those labels, and then the name the pointer
   leads to; the name ends right after the pointer.
   */
  lemma {:induction false} DecodesCompressed(data: seq<Byte>, offset: nat, labels: seq<seq<Byte>>, target: nat, steps: nat)
    requires Encodable(labels) && ProperLabels(labels) && target < 16384
    requires Holds(data, offset, Front(labels) + PointTo(target)) && NameAt(data, target, steps).Some?
    ensures NameAt(data, offset, |labels| + 1 + steps)
      == Some(Name(labels + NameAt(data, target, steps).value.labels, offset + |Front(labels)| + 2))
    decreases |labels|
  {
    hide Holds, Front, NodeAt, PointTo, NameAt;
    if labels == [] {
      PointerLeads(data, offset, target, steps);
    } else {
      var text := labels[0];
      FirstOfFront(labels, target);
      LabelIsRead(data, offset, text, Front(labels[1..]) + PointTo(target));
      DecodesCompressed(data, offset + 1 + |text|, labels[1..], target, steps);
      LabelLeads(data, offset, text, offset + 1 + |text|, |labels| + 1 + steps);
      assert [text] + (labels[1..] + NameAt(data, target, steps).value.labels)
          == labels + NameAt(data, target, steps).value.labels;
    }
  }

  lemma PointerLeads(data: seq<Byte>, offset: nat, target: nat, steps: nat)
    requires target < 16384 && Holds(data, offset, Front([]) + PointTo(target)) && NameAt(data, target, steps).Some?
    ensures NameAt(data, offset, 1 + steps)
      == Some(Name([] + NameAt(data, target, steps).value.labels, offset + |Front([])| + 2))
  {
    assert [] + PointTo(target) == PointTo(target);
    PointerIsRead(data, offset, target);
    assert [] + NameAt(data, target, steps).value.labels == NameAt(data, target, steps).value.labels;
  }

  lemma LabelLeads(data: seq<Byte>, offset: nat, text: seq<Byte>, next: nat, steps: nat)
    requires steps > 0 && NodeAt(data, offset) == Label(text, next) && NameAt(data, next, steps - 1).Some?
    ensures
      var rest := NameAt(data, next, steps - 1).value;
      NameAt(data, offset, steps) == Some(Name([text] + rest.labels, rest.end))
  {
  }

  lemma FirstOfFront(labels: seq<seq<Byte>>, target: nat)
    requires labels != [] && Encodable(labels) && target < 16384
    ensures |labels[0]| < 256 && |Front(labels)| == 1 + |labels[0]| + |Front(labels[1..])|
    ensures Front(labels) + PointTo(target)
      == [|labels[0]| as Byte] + labels[0] + (Front(labels[1..]) + PointTo(target))
  {
  }

  // ---------------------------------------------------------------- the text of a name

  predicate Undotted(labels: seq<seq<Byte>>) {
    labels != [] && forall i | 0 <= i < |labels| :: 46 !in labels[i]
  }

  lemma JoinSteps(labels: seq<seq<Byte>>)
    requires labels != []
    ensures Join(labels) == if |labels| == 1 then labels[0] else labels[0] + [46] + Join(labels[1..])
  {
    assert '.' as int == 46;
  }

  /** The first label ends where the text ends, or at its first dot. */
  lemma SameFirst(s: seq<Byte>, x: seq<Byte>, y: seq<Byte>)
    requires x <= s && (|x| == |s| || s[|x|] == 46) && 46 !in x
    requires y <= s && (|y| == |s| || s[|y|] == 46) && 46 !in y
    ensures x == y
  {
    if |x| < |y| {
      assert false;
    } else if |y| < |x| {
      assert false;
    }
  }

  /** Names whose labels have no dots are the same text only if they have the same labels. */
  lemma {:induction false} JoinIsInjective(a: seq<seq<Byte>>, b: seq<seq<Byte>>)
    requires Undotted(a) && Undotted(b) && Join(a) == Join(b)
    ensures a == b
    decreases |a|
  {
    JoinSteps(a);
    JoinSteps(b);
    hide Join;
    var s := Join(a);
    SameFirst(s, a[0], b[0]);
    if |a| > 1 {
      assert s[|a[0]| + 1..] == Join(a[1..]) && s[|a[0]| + 1..] == Join(b[1..]);
      JoinIsInjective(a[1..], b[1..]);
      assert a == [a[0]] + a[1..] && b == [b[0]] + b[1..];
    }
  }
}
