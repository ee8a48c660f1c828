/**
 The byte layout of the node blob: fixed-stride records whose five link slots are two or three
 bytes wide, with the text range of a string node overlaid on its first/last-child slots.
 */
module NodeLayout {
  import opened Wrappers
  import opened LittleEndian

  datatype Width = U16 | U24

  const SYS_ROOT: byte := 0
  const SYS_DELETED: byte := 1
  const SYS_TEXT: byte := 2
  const SYS_COMMENT: byte := 3

  function Slot(w: Width): nat {
    if w.U16? then 2 else 3
  }

  /** The all-ones "no node" value. */
  function Sentinel(w: Width): nat {
    if w.U16? then 0xFFFF else 0xFF_FFFF
  }

  function NodeSize(w: Width): nat {
    5 + 5 * Slot(w)
  }

  datatype Link = Parent | Prev | Next | First | Last

  function Offset(w: Width, l: Link): nat {
    match l
    case Parent => 1
    case Prev => 1 + Slot(w)
    case Next => 1 + 2 * Slot(w)
    case First => 1 + 3 * Slot(w)
    case Last => 1 + 4 * Slot(w)
  }

  function ClassAt(w: Width): nat { 1 + 5 * Slot(w) }
  function AttrAt(w: Width): nat { 1 + 5 * Slot(w) + 2 }
  function TextStartAt(w: Width): nat { 1 + 3 * Slot(w) }
  function TextEndAt(w: Width): nat { 1 + 3 * Slot(w) + 4 }

  // ---- slots ----

  function LittleEndian2(x: nat, y: nat): nat { x + 256 * y }
  function LittleEndian3(x: nat, y: nat, z: nat): nat { x + 256 * y + 65536 * z }
  function LittleEndian4(x: nat, y: nat, z: nat, u: nat): nat { x + 256 * y + 65536 * z + 16777216 * u }

  function ReadNodeSlot(b: Bytes, pos: nat, w: Width): Option<nat>
    requires pos + Slot(w) <= |b|
  {
    var v := if w.U16? then LittleEndian2(b[pos], b[pos + 1]) else LittleEndian3(b[pos], b[pos + 1], b[pos + 2]);
    if v == Sentinel(w) then None else Some(v)
  }

  /** The low bytes of `v`, as the narrowing casts of the writer keep them. */
  function WriteNodeSlot(b: Bytes, pos: nat, w: Width, val: Option<nat>): Bytes
    requires pos + Slot(w) <= |b|
  {
    var v := if val.Some? then val.value else Sentinel(w);
    if w.U16? then b[pos := v % 256][pos + 1 := v / 256 % 256]
    else b[pos := v % 256][pos + 1 := v / 256 % 256][pos + 2 := v / 65536 % 256]
  }

  function ReadU16Slot(b: Bytes, pos: nat): Option<nat>
    requires pos + 2 <= |b|
  {
    var v := LittleEndian2(b[pos], b[pos + 1]);
    if v == 0xFFFF then None else Some(v)
  }

  function WriteU16Slot(b: Bytes, pos: nat, val: Option<nat>): Bytes
    requires pos + 2 <= |b|
  {
    var v := if val.Some? then val.value else 0xFFFF;
    b[pos := v % 256][pos + 1 := v / 256 % 256]
  }

  function ReadU32Slot(b: Bytes, pos: nat): nat
    requires pos + 4 <= |b|
  {
    LittleEndian4(b[pos], b[pos + 1], b[pos + 2], b[pos + 3])
  }

  function WriteU32Slot(b: Bytes, pos: nat, v: nat): Bytes
    requires pos + 4 <= |b|
  {
    b[pos := v % 256][pos + 1 := v / 256 % 256][pos + 2 := v / 65536 % 256][pos + 3 := v / 16777216 % 256]
  }

  /**
   What a link slot gives back: a link survives exactly when it fits under the sentinel; a wider
   one comes back truncated, and the sentinel itself comes back as "no node".
   */
  lemma NodeSlotRoundTrip(b: Bytes, pos: nat, w: Width, val: Option<nat>)
    requires pos + Slot(w) <= |b|
    ensures val.None? || val.value < Sentinel(w) <==> ReadNodeSlot(WriteNodeSlot(b, pos, w, val), pos, w) == val
    ensures val.Some? ==>
              var t := val.value % (Sentinel(w) + 1);
              ReadNodeSlot(WriteNodeSlot(b, pos, w, val), pos, w) == if t == Sentinel(w) then None else Some(t)
  {
    var v, c := if val.Some? then val.value else Sentinel(w), WriteNodeSlot(b, pos, w, val);
    LowBytes(v);
    assert c[pos] == v % 256 && c[pos + 1] == v / 256 % 256 && (w.U24? ==> c[pos + 2] == v / 65536 % 256);
    Wraps(v);
  }

  lemma LowBytes(v: nat)
    ensures LittleEndian2(v % 256, v / 256 % 256) == v % 0x1_0000
    ensures LittleEndian3(v % 256, v / 256 % 256, v / 65536 % 256) == v % 0x100_0000
    ensures LittleEndian4(v % 256, v / 256 % 256, v / 65536 % 256, v / 16777216 % 256) == v % 0x1_0000_0000
  {
    LowByte(v, 256);
    LowByte(v, 65536);
    LowByte(v, 16777216);
  }

  /** Byte by byte: the part of `v` below `256 * d` is the part below `d` plus the next byte. */
  lemma LowByte(v: nat, d: nat)
    requires d == 256 || d == 65536 || d == 16777216
    ensures v % (256 * d) == v % d + d * (v / d % 256)
  {
    var q, r := v / d, v % d;
    assert v == (256 * d) * (q / 256) + (d * (q % 256) + r);
  }

  lemma U16SlotRoundTrip(b: Bytes, pos: nat, val: Option<nat>)
    requires pos + 2 <= |b|
    ensures val.None? || val.value < 0xFFFF <==> ReadU16Slot(WriteU16Slot(b, pos, val), pos) == val
  {
    var v, c := if val.Some? then val.value else 0xFFFF, WriteU16Slot(b, pos, val);
    LowBytes(v);
    assert c[pos] == v % 256 && c[pos + 1] == v / 256 % 256;
    Wraps(v);
  }

  lemma Wraps(v: nat)
    ensures v % 0x1_0000 == v <==> v < 0x1_0000
    ensures v % 0x100_0000 == v <==> v < 0x100_0000
  {
  }

  lemma U32SlotRoundTrip(b: Bytes, pos: nat, v: nat)
    requires pos + 4 <= |b|
    ensures ReadU32Slot(WriteU32Slot(b, pos, v), pos) == v % 0x1_0000_0000
    ensures v < 0x1_0000_0000 ==> ReadU32Slot(WriteU32Slot(b, pos, v), pos) == v
  {
    var c := WriteU32Slot(b, pos, v);
    LowBytes(v);
    assert c[pos] == v % 256 && c[pos + 1] == v / 256 % 256 && c[pos + 2] == v / 65536 % 256
           && c[pos + 3] == v / 16777216 % 256;
    Fits32(v);
  }

  lemma Fits32(v: nat)
    ensures v < 0x1_0000_0000 ==> v % 0x1_0000_0000 == v
  {
  }

  // ---- records ----

  /** What the last bytes of a record hold: child links and store slots, or a text range. */
  datatype Body =
    | Branch(first: Option<nat>, last: Option<nat>, cls: Option<nat>, attr: Option<nat>)
    | Text(start: nat, end: nat)

  datatype Rec = Rec(tag: byte, parent: Option<nat>, prev: Option<nat>, next: Option<nat>, body: Body)
  {
    function FirstChild(): Option<nat> { if body.Branch? then body.first else None }
    function LastChild(): Option<nat> { if body.Branch? then body.last else None }
  }

  type Arena = seq<Rec>

  predicate IsStringTag(tag: byte) {
    tag == SYS_TEXT || tag == SYS_COMMENT
  }

  /** The record whose bytes start at `base`, as the accessors read it. */
  function RecFrom(b: Bytes, w: Width, base: nat): Rec
    requires base + NodeSize(w) <= |b|
  {
    var parent := ReadNodeSlot(b, base + Offset(w, Parent), w);
    var prev := ReadNodeSlot(b, base + Offset(w, Prev), w);
    var next := ReadNodeSlot(b, base + Offset(w, Next), w);
    var body :=
      if IsStringTag(b[base]) then
        Text(ReadU32Slot(b, base + TextStartAt(w)), ReadU32Slot(b, base + TextEndAt(w)))
      else
        Branch(ReadNodeSlot(b, base + Offset(w, First), w), ReadNodeSlot(b, base + Offset(w, Last), w),
               ReadU16Slot(b, base + ClassAt(w)), ReadU16Slot(b, base + AttrAt(w)));
    Rec(b[base], parent, prev, next, body)
  }

  /** The number in a slot, all ones standing for none. */
  function SlotValue(b: Bytes, from: nat, to: nat): Option<nat>
    requires from <= to <= |b|
  {
    var v := Decode(b[from..to]);
    if v == Power256(to - from) - 1 then None else Some(v)
  }

  lemma DecodeStep(b: Bytes, pos: nat, n: nat)
    requires pos + n + 1 <= |b|
    ensures Decode(b[pos..pos + n + 1]) == b[pos] as int + 256 * Decode(b[pos + 1..pos + 1 + n])
  {
    assert b[pos..pos + n + 1][1..] == b[pos + 1..pos + 1 + n];
  }

  lemma Slot2(b: Bytes, pos: nat)
    requires pos + 2 <= |b|
    ensures Decode(b[pos..pos + 2]) == LittleEndian2(b[pos], b[pos + 1])
    ensures ReadU16Slot(b, pos) == ReadNodeSlot(b, pos, U16) == SlotValue(b, pos, pos + 2)
  {
    DecodeStep(b, pos, 1);
    DecodeStep(b, pos + 1, 0);
    assert Power256(1) == 256 && Power256(2) == 0x1_0000;
  }

  lemma Slot3(b: Bytes, pos: nat)
    requires pos + 3 <= |b|
    ensures Decode(b[pos..pos + 3]) == LittleEndian3(b[pos], b[pos + 1], b[pos + 2])
    ensures ReadNodeSlot(b, pos, U24) == SlotValue(b, pos, pos + 3)
  {
    DecodeStep(b, pos, 2);
    Slot2(b, pos + 1);
    assert Power256(2) == 0x1_0000 && Power256(3) == 0x100_0000;
  }

  lemma Slot4(b: Bytes, pos: nat)
    requires pos + 4 <= |b|
    ensures ReadU32Slot(b, pos) == Decode(b[pos..pos + 4])
  {
    DecodeStep(b, pos, 3);
    Slot3(b, pos + 1);
  }

  /** Where the fields of a record with two-byte links stand in its 15 bytes. */
  lemma NarrowRecord(b: Bytes, at: nat)
    requires at + 15 <= |b|
    ensures var r := RecFrom(b, U16, at);
            && r.tag == b[at] && r.parent == SlotValue(b, at + 1, at + 3) && r.prev == SlotValue(b, at + 3, at + 5)
            && r.next == SlotValue(b, at + 5, at + 7)
            && r.body == if b[at] == 2 || b[at] == 3 then
                           Text(Decode(b[at + 7..at + 11]), Decode(b[at + 11..at + 15]))
                         else
                           Branch(SlotValue(b, at + 7, at + 9), SlotValue(b, at + 9, at + 11),
                                  SlotValue(b, at + 11, at + 13), SlotValue(b, at + 13, at + 15))
  {
    Slot2(b, at + 1);
    Slot2(b, at + 3);
    Slot2(b, at + 5);
    Slot2(b, at + 7);
    Slot2(b, at + 9);
    Slot2(b, at + 11);
    Slot2(b, at + 13);
    Slot4(b, at + 7);
    Slot4(b, at + 11);
  }

  /** And those of a record with three-byte links, in its 20. */
  lemma WideRecord(b: Bytes, at: nat)
    requires at + 20 <= |b|
    ensures var r := RecFrom(b, U24, at);
            && r.tag == b[at] && r.parent == SlotValue(b, at + 1, at + 4) && r.prev == SlotValue(b, at + 4, at + 7)
            && r.next == SlotValue(b, at + 7, at + 10)
            && r.body == if b[at] == 2 || b[at] == 3 then
                           Text(Decode(b[at + 10..at + 14]), Decode(b[at + 14..at + 18]))
                         else
                           Branch(SlotValue(b, at + 10, at + 13), SlotValue(b, at + 13, at + 16),
                                  SlotValue(b, at + 16, at + 18), SlotValue(b, at + 18, at + 20))
  {
    Slot3(b, at + 1);
    Slot3(b, at + 4);
    Slot3(b, at + 7);
    Slot3(b, at + 10);
    Slot3(b, at + 13);
    Slot2(b, at + 16);
    Slot2(b, at + 18);
    Slot4(b, at + 10);
    Slot4(b, at + 14);
  }

  /** Where record `i` starts: `i` strides in. */
  function Base(w: Width, i: nat): nat {
    match w
    case U16 => i * 15
    case U24 => i * 20
  }

  predicate RecSpelled(b: Bytes, w: Width, a: Arena, i: nat)
    requires i < |a|
  {
    Base(w, i) + NodeSize(w) <= |b| && a[i] == RecFrom(b, w, Base(w, i))
  }

  /** `a` is the whole blob, record by record. */
  ghost predicate Spells(b: Bytes, w: Width, a: Arena) {
    |b| == Base(w, |a|) && forall i :: 0 <= i < |a| ==> RecSpelled(b, w, a, i)
  }

  function GetLink(r: Rec, l: Link): Option<nat>
    requires l.First? || l.Last? ==> r.body.Branch?
  {
    match l
    case Parent => r.parent
    case Prev => r.prev
    case Next => r.next
    case First => r.body.first
    case Last => r.body.last
  }

  function SetLink(r: Rec, l: Link, v: Option<nat>): Rec
    requires l.First? || l.Last? ==> r.body.Branch?
  {
    match l
    case Parent => r.(parent := v)
    case Prev => r.(prev := v)
    case Next => r.(next := v)
    case First => r.(body := r.body.(first := v))
    case Last => r.(body := r.body.(last := v))
  }

  /** `c` is `b` with some of the bytes from `from` up to `to` rewritten. */
  predicate ChangedWithin(b: Bytes, c: Bytes, from: nat, to: nat) {
    |c| == |b| && forall k :: 0 <= k < |b| && (k < from || to <= k) ==> c[k] == b[k]
  }

  lemma RecordsApart(w: Width, i: nat, j: nat)
    requires i != j
    ensures Base(w, j) + NodeSize(w) <= Base(w, i) || Base(w, i) + NodeSize(w) <= Base(w, j)
  {
    assert w.U16? ==> Base(w, i) == 15 * i && Base(w, j) == 15 * j;
    assert w.U24? ==> Base(w, i) == 20 * i && Base(w, j) == 20 * j;
  }

  lemma SameBytesSameRecord(b: Bytes, c: Bytes, w: Width, base: nat)
    requires base + NodeSize(w) <= |b| && base + NodeSize(w) <= |c|
    requires forall k :: base <= k < base + NodeSize(w) ==> c[k] == b[k]
    ensures RecFrom(c, w, base) == RecFrom(b, w, base)
  {
    match w
    case U16 =>
    case U24 =>
  }

  /** A rewrite confined to record `i` leaves every other record as it was. */
  lemma RecordFrame(b: Bytes, c: Bytes, w: Width, a: Arena, i: nat)
    requires Spells(b, w, a) && i < |a| && Base(w, i) + NodeSize(w) <= |b|
    requires ChangedWithin(b, c, Base(w, i), Base(w, i) + NodeSize(w))
    ensures Spells(c, w, a[i := RecFrom(c, w, Base(w, i))])
  {
    var d := a[i := RecFrom(c, w, Base(w, i))];
    forall j | 0 <= j < |a| ensures RecSpelled(c, w, d, j) {
      if j != i {
        assert RecSpelled(b, w, a, j);
        RecordsApart(w, i, j);
        SameBytesSameRecord(b, c, w, Base(w, j));
      }
    }
  }

  lemma WriteNodeSlotLocal(b: Bytes, pos: nat, w: Width, v: Option<nat>)
    requires pos + Slot(w) <= |b|
    ensures ChangedWithin(b, WriteNodeSlot(b, pos, w, v), pos, pos + Slot(w))
  {
  }

  lemma WriteU32SlotLocal(b: Bytes, pos: nat, v: nat)
    requires pos + 4 <= |b|
    ensures ChangedWithin(b, WriteU32Slot(b, pos, v), pos, pos + 4)
  {
  }

  lemma WriteU16SlotLocal(b: Bytes, pos: nat, v: Option<nat>)
    requires pos + 2 <= |b|
    ensures ChangedWithin(b, WriteU16Slot(b, pos, v), pos, pos + 2)
  {
  }

  /** Rewriting the bytes of one link slot changes that link of the record and no other field. */
  lemma SlotFrame(b: Bytes, c: Bytes, w: Width, base: nat, l: Link, v: Option<nat>)
    requires base + NodeSize(w) <= |b| && (l.First? || l.Last? ==> !IsStringTag(b[base]))
    requires ChangedWithin(b, c, base + Offset(w, l), base + Offset(w, l) + Slot(w))
    requires ReadNodeSlot(c, base + Offset(w, l), w) == v
    ensures RecFrom(c, w, base) == SetLink(RecFrom(b, w, base), l, v)
  {
    match w
    case U16 => match l { case Parent => case Prev => case Next => case First => case Last => }
    case U24 => match l { case Parent => case Prev => case Next => case First => case Last => }
  }

  /** Writing one link slot changes that link of that record and nothing else in the blob. */
  lemma SetLinkBytes(b: Bytes, c: Bytes, w: Width, a: Arena, i: nat, l: Link, v: Option<nat>)
    requires Spells(b, w, a) && i < |a| && Base(w, i) + NodeSize(w) <= |b|
    requires l.First? || l.Last? ==> a[i].body.Branch?
    requires ChangedWithin(b, c, Base(w, i) + Offset(w, l), Base(w, i) + Offset(w, l) + Slot(w))
    requires ReadNodeSlot(c, Base(w, i) + Offset(w, l), w) == v
    ensures Spells(c, w, a[i := SetLink(a[i], l, v)])
  {
    assert RecSpelled(b, w, a, i);
    SlotFrame(b, c, w, Base(w, i), l, v);
    SlotInRecord(w, l);
    RecordFrame(b, c, w, a, i);
  }

  lemma SlotInRecord(w: Width, l: Link)
    ensures Offset(w, l) + Slot(w) <= NodeSize(w)
  {
  }

  /** The tag and the three place links come first, then what is laid over with a text range, then the store slots. */
  lemma SlotsApart(w: Width)
    ensures 1 <= Offset(w, Parent) && Offset(w, Parent) + Slot(w) <= TextStartAt(w)
    ensures 1 <= Offset(w, Prev) && Offset(w, Prev) + Slot(w) <= TextStartAt(w)
    ensures 1 <= Offset(w, Next) && Offset(w, Next) + Slot(w) <= TextStartAt(w)
    ensures TextStartAt(w) <= Offset(w, First) && Offset(w, First) + Slot(w) <= ClassAt(w)
    ensures TextStartAt(w) <= Offset(w, Last) && Offset(w, Last) + Slot(w) <= ClassAt(w)
    ensures TextEndAt(w) == TextStartAt(w) + 4 && TextEndAt(w) + 4 <= NodeSize(w)
    ensures AttrAt(w) == ClassAt(w) + 2 && AttrAt(w) + 2 == NodeSize(w)
  {
  }

  lemma NodeSlotAgree(b: Bytes, c: Bytes, w: Width, pos: nat)
    requires |c| == |b| && pos + Slot(w) <= |b| && forall k :: pos <= k < pos + Slot(w) ==> c[k] == b[k]
    ensures ReadNodeSlot(c, pos, w) == ReadNodeSlot(b, pos, w)
  {
  }

  /** Where the bytes up to the children or the text range are the same, so are tag, parent and siblings. */
  lemma PlaceLinksAgree(b: Bytes, c: Bytes, w: Width, base: nat)
    requires |c| == |b| && base + NodeSize(w) <= |b| && forall k :: base <= k < base + TextStartAt(w) ==> c[k] == b[k]
    ensures var r, s := RecFrom(b, w, base), RecFrom(c, w, base);
            s.tag == r.tag && s.parent == r.parent && s.prev == r.prev && s.next == r.next
  {
    SlotsApart(w);
    NodeSlotAgree(b, c, w, base + Offset(w, Parent));
    NodeSlotAgree(b, c, w, base + Offset(w, Prev));
    NodeSlotAgree(b, c, w, base + Offset(w, Next));
  }

  lemma TextFrame(b: Bytes, c: Bytes, w: Width, base: nat, start: nat, end: nat)
    requires base + NodeSize(w) <= |b| && IsStringTag(b[base])
    requires ChangedWithin(b, c, base + TextStartAt(w), base + TextStartAt(w) + 8)
    requires ReadU32Slot(c, base + TextStartAt(w)) == start && ReadU32Slot(c, base + TextEndAt(w)) == end
    ensures RecFrom(b, w, base).body.Text?
    ensures RecFrom(c, w, base) == RecFrom(b, w, base).(body := Text(start, end))
  {
    SlotsApart(w);
    PlaceLinksAgree(b, c, w, base);
  }

  /** The text range overlays the first/last-child slots, so only a string node may take one. */
  lemma SetTextBytes(b: Bytes, c: Bytes, w: Width, a: Arena, i: nat, start: nat, end: nat)
    requires Spells(b, w, a) && i < |a| && Base(w, i) + NodeSize(w) <= |b| && a[i].body.Text?
    requires ChangedWithin(b, c, Base(w, i) + TextStartAt(w), Base(w, i) + TextStartAt(w) + 8)
    requires ReadU32Slot(c, Base(w, i) + TextStartAt(w)) == start && ReadU32Slot(c, Base(w, i) + TextEndAt(w)) == end
    ensures Spells(c, w, a[i := a[i].(body := Text(start, end))])
  {
    assert RecSpelled(b, w, a, i);
    TextFrame(b, c, w, Base(w, i), start, end);
    RecordFrame(b, c, w, a, i);
  }

  lemma U32Agree(b: Bytes, c: Bytes, pos: nat)
    requires |b| == |c| && pos + 4 <= |b| && forall k :: pos <= k < pos + 4 ==> c[k] == b[k]
    ensures ReadU32Slot(c, pos) == ReadU32Slot(b, pos)
  {
  }

  lemma StoreFrame(b: Bytes, c: Bytes, w: Width, base: nat)
    requires base + NodeSize(w) <= |b| && !IsStringTag(b[base])
    requires ChangedWithin(b, c, base + ClassAt(w), base + ClassAt(w) + 4)
    ensures RecFrom(b, w, base).body.Branch?
    ensures RecFrom(c, w, base) == RecFrom(b, w, base).(body := RecFrom(b, w, base).body.(
              cls := ReadU16Slot(c, base + ClassAt(w)), attr := ReadU16Slot(c, base + AttrAt(w))))
  {
    SlotsApart(w);
    PlaceLinksAgree(b, c, w, base);
    NodeSlotAgree(b, c, w, base + Offset(w, First));
    NodeSlotAgree(b, c, w, base + Offset(w, Last));
  }

  lemma SetStoreBytes(b: Bytes, c: Bytes, w: Width, a: Arena, i: nat)
    requires Spells(b, w, a) && i < |a| && Base(w, i) + NodeSize(w) <= |b| && a[i].body.Branch?
    requires ChangedWithin(b, c, Base(w, i) + ClassAt(w), Base(w, i) + ClassAt(w) + 4)
    ensures Spells(c, w, a[i := a[i].(body := a[i].body.(
              cls := ReadU16Slot(c, Base(w, i) + ClassAt(w)), attr := ReadU16Slot(c, Base(w, i) + AttrAt(w))))])
  {
    assert RecSpelled(b, w, a, i);
    StoreFrame(b, c, w, Base(w, i));
    RecordFrame(b, c, w, a, i);
  }

  /** Appending one stride of bytes appends one record and disturbs none. */
  lemma AppendRecord(b: Bytes, stride: Bytes, w: Width, a: Arena)
    requires Spells(b, w, a) && |stride| == NodeSize(w)
    ensures Spells(b + stride, w, a + [RecFrom(b + stride, w, |b|)])
  {
    var c, d := b + stride, a + [RecFrom(b + stride, w, |b|)];
    forall j | 0 <= j < |d| ensures RecSpelled(c, w, d, j) {
      if j < |a| {
        assert RecSpelled(b, w, a, j);
        SameBytesSameRecord(b, c, w, Base(w, j));
      }
    }
  }

  /** The two halves of a text range, written one after the other. */
  lemma TextWritten(b: Bytes, c: Bytes, d: Bytes, pos: nat, start: nat, end: nat)
    requires pos + 8 <= |b| && ChangedWithin(b, c, pos, pos + 4) && ChangedWithin(c, d, pos + 4, pos + 8)
    requires ReadU32Slot(c, pos) == start && ReadU32Slot(d, pos + 4) == end
    ensures ChangedWithin(b, d, pos, pos + 8) && ReadU32Slot(d, pos) == start
  {
    U32Agree(c, d, pos);
  }

  /** A freshly added node: no children, an empty text range, no class or attribute list. */
  function Blank(tag: byte, parent: Option<nat>, prev: Option<nat>, next: Option<nat>): Rec {
    Rec(tag, parent, prev, next, if IsStringTag(tag) then Text(0, 0) else Branch(None, None, None, None))
  }

  // ---- whole records at another width ----

  predicate Under(v: Option<nat>, limit: nat) {
    v.Some? ==> v.value < limit
  }

  /** Every link of the record is representable under `limit`. */
  predicate RecFits(r: Rec, limit: nat) {
    && Under(r.parent, limit) && Under(r.prev, limit) && Under(r.next, limit)
    && Under(r.FirstChild(), limit) && Under(r.LastChild(), limit)
  }

  /** The width-independent fields of a record hold what their fixed-width slots can hold. */
  predicate PayloadFits(r: Rec) {
    && r.body.Text? == IsStringTag(r.tag)
    && match r.body {
      case Branch(_, _, cls, attr) => Under(cls, 0xFFFF) && Under(attr, 0xFFFF)
      case Text(start, end) => start < 0x1_0000_0000 && end < 0x1_0000_0000
    }
  }

  lemma SourceFits(b: Bytes, w: Width, base: nat)
    requires base + NodeSize(w) <= |b|
    ensures PayloadFits(RecFrom(b, w, base)) && RecFits(RecFrom(b, w, base), Sentinel(w))
  {
  }

  lemma LinkPut(b: Bytes, c: Bytes, w: Width, base: nat, l: Link, v: Option<nat>)
    requires base + NodeSize(w) <= |b| && c == WriteNodeSlot(b, base + Offset(w, l), w, v)
    requires l.First? || l.Last? ==> !IsStringTag(b[base])
    ensures ChangedWithin(b, c, base + 1, base + NodeSize(w))
    ensures Under(v, Sentinel(w)) ==> RecFrom(c, w, base) == SetLink(RecFrom(b, w, base), l, v)
  {
    WriteNodeSlotLocal(b, base + Offset(w, l), w, v);
    SlotInRecord(w, l);
    if Under(v, Sentinel(w)) {
      NodeSlotRoundTrip(b, base + Offset(w, l), w, v);
      SlotFrame(b, c, w, base, l, v);
    }
  }

  lemma TextPut(b: Bytes, w: Width, base: nat, start: nat, end: nat)
    requires base + NodeSize(w) <= |b| && IsStringTag(b[base]) && start < 0x1_0000_0000 && end < 0x1_0000_0000
    ensures var d := WriteU32Slot(WriteU32Slot(b, base + TextStartAt(w), start), base + TextEndAt(w), end);
            ChangedWithin(b, d, base + 1, base + NodeSize(w))
                && RecFrom(d, w, base) == RecFrom(b, w, base).(body := Text(start, end))
  {
    var s, e := base + TextStartAt(w), base + TextEndAt(w);
    var c := WriteU32Slot(b, s, start);
    var d := WriteU32Slot(c, e, end);
    U32Put(b, c, s, start);
    U32Put(c, d, e, end);
    TextWritten(b, c, d, s, start, end);
    TextFrame(b, d, w, base, start, end);
  }

  lemma U32Put(b: Bytes, c: Bytes, pos: nat, v: nat)
    requires pos + 4 <= |b| && v < 0x1_0000_0000 && c == WriteU32Slot(b, pos, v)
    ensures ChangedWithin(b, c, pos, pos + 4) && ReadU32Slot(c, pos) == v
  {
    WriteU32SlotLocal(b, pos, v);
    U32SlotRoundTrip(b, pos, v);
  }

  lemma StorePut(b: Bytes, w: Width, base: nat, cls: Option<nat>, attr: Option<nat>)
    requires base + NodeSize(w) <= |b| && !IsStringTag(b[base]) && Under(cls, 0xFFFF) && Under(attr, 0xFFFF)
    ensures var d := WriteU16Slot(WriteU16Slot(b, base + ClassAt(w), cls), base + AttrAt(w), attr);
            ChangedWithin(b, d, base + 1, base + NodeSize(w)) && RecFrom(b, w, base).body.Branch?
            && RecFrom(d, w, base) == RecFrom(b, w, base).(body := RecFrom(b, w, base).body.(cls := cls, attr := attr))
  {
    var s, e := base + ClassAt(w), base + AttrAt(w);
    var c := WriteU16Slot(b, s, cls);
    var d := WriteU16Slot(c, e, attr);
    WriteU16SlotLocal(b, s, cls);
    U16SlotRoundTrip(b, s, cls);
    WriteU16SlotLocal(c, e, attr);
    U16SlotRoundTrip(c, e, attr);
    U16Agree(c, d, s);
    StoreFrame(b, d, w, base);
  }

  lemma U16Agree(b: Bytes, c: Bytes, pos: nat)
    requires |b| == |c| && pos + 2 <= |b| && c[pos] == b[pos] && c[pos + 1] == b[pos + 1]
    ensures ReadU16Slot(c, pos) == ReadU16Slot(b, pos)
  {
  }

  /** The tag, the parent and the siblings of `r` written at `base`. */
  method PutPlace(b: Bytes, w: Width, base: nat, r: Rec) returns (c: Bytes)
    requires base + NodeSize(w) <= |b|
    ensures ChangedWithin(b, c, base, base + NodeSize(w)) && c[base] == r.tag
    ensures RecFits(r, Sentinel(w)) ==> SamePlace(RecFrom(c, w, base), r)
  {
    var c0 := b[base := r.tag];
    var c1 := WriteNodeSlot(c0, base + Offset(w, Parent), w, r.parent);
    LinkPut(c0, c1, w, base, Parent, r.parent);
    var c2 := WriteNodeSlot(c1, base + Offset(w, Prev), w, r.prev);
    LinkPut(c1, c2, w, base, Prev, r.prev);
    c := WriteNodeSlot(c2, base + Offset(w, Next), w, r.next);
    LinkPut(c2, c, w, base, Next, r.next);
  }

  /** What an element holds, written behind its place. */
  method PutBranch(b: Bytes, w: Width, base: nat, first: Option<nat>, last: Option<nat>, cls: Option<nat>,
      attr: Option<nat>)
      returns (c: Bytes)
    requires base + NodeSize(w) <= |b| && !IsStringTag(b[base]) && Under(cls, 0xFFFF) && Under(attr, 0xFFFF)
    ensures ChangedWithin(b, c, base + 1, base + NodeSize(w))
    ensures Under(first, Sentinel(w)) && Under(last, Sentinel(w)) ==>
            RecFrom(c, w, base) == RecFrom(b, w, base).(body := Branch(first, last, cls, attr))
  {
    var c4 := WriteNodeSlot(b, base + Offset(w, First), w, first);
    LinkPut(b, c4, w, base, First, first);
    var c5 := WriteNodeSlot(c4, base + Offset(w, Last), w, last);
    LinkPut(c4, c5, w, base, Last, last);
    c := WriteU16Slot(WriteU16Slot(c5, base + ClassAt(w), cls), base + AttrAt(w), attr);
    StorePut(c5, w, base, cls, attr);
  }

  /** The same record up to what it holds. */
  predicate SamePlace(r: Rec, s: Rec) {
    r.tag == s.tag && r.parent == s.parent && r.prev == s.prev && r.next == s.next
  }

  /**
   All fields of `r` written at `base`, slot by slot. The record stays inside its stride and, if
   its links fit the width, reads back exactly.
   */
  method PutRecord(b: Bytes, w: Width, base: nat, r: Rec) returns (c: Bytes)
    requires base + NodeSize(w) <= |b| && PayloadFits(r)
    ensures ChangedWithin(b, c, base, base + NodeSize(w))
    ensures RecFits(r, Sentinel(w)) ==> RecFrom(c, w, base) == r
  {
    var c3 := PutPlace(b, w, base, r);
    match r.body {
      case Text(start, end) =>
        c := WriteU32Slot(WriteU32Slot(c3, base + TextStartAt(w), start), base + TextEndAt(w), end);
        TextPut(c3, w, base, start, end);
      case Branch(first, last, cls, attr) =>
        c := PutBranch(c3, w, base, first, last, cls, attr);
    }
  }

  /** Writing inside one record leaves the others as they read. */
  lemma OtherRecordKept(b: Bytes, c: Bytes, w: Width, a: Arena, i: nat, j: nat)
    requires i != j && j < |a| && ChangedWithin(b, c, Base(w, i), Base(w, i) + NodeSize(w)) && RecSpelled(b, w, a, j)
    ensures RecSpelled(c, w, a, j)
  {
    RecordsApart(w, i, j);
    SameBytesSameRecord(b, c, w, Base(w, j));
  }

  /** The first `i` records whose links fit have been rewritten. */
  ghost predicate Packing(out: Bytes, dst: Width, a: Arena, i: nat)
    requires i <= |a|
  {
    forall j :: 0 <= j < i && RecFits(a[j], Sentinel(dst)) ==> RecSpelled(out, dst, a, j)
  }

  lemma PackedOneMore(was: Bytes, out: Bytes, dst: Width, a: Arena, i: nat)
    requires i < |a| && Packing(was, dst, a, i) && ChangedWithin(was, out, Base(dst, i), Base(dst, i) + NodeSize(dst))
    requires Base(dst, i) + NodeSize(dst) <= |out|
             && (RecFits(a[i], Sentinel(dst)) ==> RecFrom(out, dst, Base(dst, i)) == a[i])
    ensures Packing(out, dst, a, i + 1)
  {
    forall j | 0 <= j < i && RecFits(a[j], Sentinel(dst)) ensures RecSpelled(out, dst, a, j) {
      OtherRecordKept(was, out, dst, a, i, j);
    }
  }

  lemma RecordEndsInside(w: Width, i: nat, n: nat)
    requires i < n
    ensures Base(w, i) + NodeSize(w) <= Base(w, n)
  {
  }
}
