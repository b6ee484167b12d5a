/**
 * The packed words of the hash table: a 44-bit location `[id 18][incarnation 6][offset/8 20]`
 * inside a 64-bit slot `[tag 12][frequency 8][location 44]`.
 */
module SlotWord {
  import opened Wrappers

  type Word = bv64

  const OFFSET_MASK: Word := 0xF_FFFF
  const MAX_RAW: Word := 0xFFF_FFFF_FFFF
  const GHOST: Word := 0xFFF_FFFF_FFFF
  const MAX_SEGMENTS: Word := 0x3_FFFE
  const MAX_FREQ: Word := 127

  // ----- Locations -----

  function PackLocation(seg: Word, generation: Word, offset: Word): Word {
    (seg << 26) | ((generation & 0x3F) << 20) | ((offset >> 3) & OFFSET_MASK)
  }

  function SegmentOf(loc: Word): Word { loc >> 26 }

  function OffsetOf(loc: Word): Word { (loc & OFFSET_MASK) << 3 }

  function IncarnationOf(loc: Word): Word { (loc >> 20) & 0x3F }

  /** Ids are 1-based and one below the field's capacity; offsets are 8-aligned and inside 8 MiB. */
  predicate Issuable(seg: Word, offset: Word) {
    1 <= seg <= MAX_SEGMENTS && offset & 7 == 0 && offset < 0x80_0000
  }

  /** A location gives back what it was packed from, and is neither empty nor the ghost. */
  lemma LocationReadsBack(seg: Word, generation: Word, offset: Word)
    requires Issuable(seg, offset)
    ensures var loc := PackLocation(seg, generation, offset);
      && SegmentOf(loc) == seg && OffsetOf(loc) == offset && IncarnationOf(loc) == generation & 0x3F
      && loc <= MAX_RAW && loc != GHOST && loc != 0
  {
    var loc := PackLocation(seg, generation, offset);
    assert SegmentOf(loc) == seg;
    assert OffsetOf(loc) == offset;
    assert IncarnationOf(loc) == generation & 0x3F;
  }

  /** The reserved id is what keeps the ghost out: with it in the id field a location can be the ghost. */
  lemma GhostNeedsTheReservedId(seg: Word, generation: Word, offset: Word)
    requires 1 <= seg <= 0x3_FFFF && offset & 7 == 0 && offset < 0x80_0000
    ensures PackLocation(seg, generation, offset) == GHOST <==>
      seg == 0x3_FFFF && generation & 0x3F == 0x3F && offset == 0x7F_FFF8
  {
    var loc := PackLocation(seg, generation, offset);
    assert SegmentOf(loc) == seg && OffsetOf(loc) == offset && IncarnationOf(loc) == generation & 0x3F;
    assert SegmentOf(GHOST) == 0x3_FFFF && OffsetOf(GHOST) == 0x7F_FFF8 && IncarnationOf(GHOST) == 0x3F;
  }

  /** Only the low six bits of the generation are in the location. */
  lemma SameIncarnation(seg: Word, gen: Word, off: Word, gen': Word)
    requires gen & 0x3F == gen' & 0x3F
    ensures PackLocation(seg, gen, off) == PackLocation(seg, gen', off)
  {
  }

  // ----- Slots -----

  function Pack(tag: Word, freq: Word, loc: Word): Word {
    ((tag & 0xFFF) << 52) | ((freq & 0xFF) << 44) | (loc & MAX_RAW)
  }

  function TagOf(w: Word): Word { w >> 52 }

  function FreqOf(w: Word): Word { (w >> 44) & 0xFF }

  function LocationOf(w: Word): Word { w & MAX_RAW }

  predicate IsGhost(w: Word) { w != 0 && LocationOf(w) == GHOST }

  function ToGhost(w: Word): Word { Pack(TagOf(w), FreqOf(w), GHOST) }

  function WithFreq(w: Word, freq: Word): Word { (w & !(0xFF << 44)) | (freq << 44) }

  lemma SlotReadsBack(tag: Word, freq: Word, loc: Word)
    requires tag <= 0xFFF && freq <= 0xFF && loc <= MAX_RAW
    ensures var w := Pack(tag, freq, loc); TagOf(w) == tag && FreqOf(w) == freq && LocationOf(w) == loc
  {
    var w := Pack(tag, freq, loc);
    assert TagOf(w) == tag;
    assert FreqOf(w) == freq;
    assert LocationOf(w) == loc;
  }

  lemma ItemIsNoGhost(tag: Word, freq: Word, loc: Word)
    requires tag <= 0xFFF && freq <= 0xFF && loc <= MAX_RAW && loc != GHOST && loc != 0
    ensures var w := Pack(tag, freq, loc); w != 0 && !IsGhost(w)
  {
    SlotReadsBack(tag, freq, loc);
  }

  /**
   * Two slot words of items are equal exactly when tag, frequency, segment,
   * offset and the generation modulo 64 are; neither is empty or a ghost.
   */
  lemma SlotDeterminesItem(tag: Word, freq: Word, seg: Word, gen: Word, off: Word,
                           tag': Word, freq': Word, seg': Word, gen': Word, off': Word)
    requires tag <= 0xFFF && freq <= 0xFF && Issuable(seg, off)
    requires tag' <= 0xFFF && freq' <= 0xFF && Issuable(seg', off')
    ensures Pack(tag, freq, PackLocation(seg, gen, off)) == Pack(tag', freq', PackLocation(seg', gen', off')) <==>
      tag == tag' && freq == freq' && seg == seg' && gen & 0x3F == gen' & 0x3F && off == off'
    ensures var w := Pack(tag, freq, PackLocation(seg, gen, off)); w != 0 && !IsGhost(w)
  {
    hide PackLocation, Pack, TagOf, FreqOf, LocationOf, SegmentOf, OffsetOf, IncarnationOf;
    LocationReadsBack(seg, gen, off);
    LocationReadsBack(seg', gen', off');
    if gen & 0x3F == gen' & 0x3F { SameIncarnation(seg, gen, off, gen'); }
    SlotReadsBack(tag, freq, PackLocation(seg, gen, off));
    ItemIsNoGhost(tag, freq, PackLocation(seg, gen, off));
    SlotReadsBack(tag', freq', PackLocation(seg', gen', off'));
  }

  lemma WithFreqFreq(w: Word, freq: Word)
    requires freq <= 0xFF
    ensures FreqOf(WithFreq(w, freq)) == freq
  {
  }

  lemma WithFreqTag(w: Word, freq: Word)
    requires freq <= 0xFF
    ensures TagOf(WithFreq(w, freq)) == TagOf(w)
  {
  }

  lemma WithFreqLocation(w: Word, freq: Word)
    ensures LocationOf(WithFreq(w, freq)) == LocationOf(w)
  {
  }

  lemma WithSameFreq(w: Word)
    ensures WithFreq(w, FreqOf(w)) == w
  {
  }

  /** Changing the frequency of any word changes that field and no other. */
  lemma WithFreqChangesOnlyFreq(w: Word, freq: Word)
    requires freq <= 0xFF
    ensures var r := WithFreq(w, freq);
      FreqOf(r) == freq && TagOf(r) == TagOf(w) && LocationOf(r) == LocationOf(w)
    ensures WithFreq(w, FreqOf(w)) == w
  {
    hide WithFreq, FreqOf, TagOf, LocationOf;
    WithFreqFreq(w, freq);
    WithFreqTag(w, freq);
    WithFreqLocation(w, freq);
    WithSameFreq(w);
  }

  /** A ghost keeps the tag and the frequency of the entry it replaces. */
  lemma GhostKeepsTagAndFreq(w: Word)
    ensures IsGhost(ToGhost(w)) && TagOf(ToGhost(w)) == TagOf(w) && FreqOf(ToGhost(w)) == FreqOf(w)
  {
    assert TagOf(w) <= 0xFFF && FreqOf(w) <= 0xFF;
    SlotReadsBack(TagOf(w), FreqOf(w), GHOST);
  }

  predicate Drawn(freq: Word, draw: Word)
    requires freq != 0
  {
    draw % freq == 0
  }

  /** The access counter: certain up to 16, then one draw in `freq`, and never past 127. */
  function TryUpdateFreq(w: Word, freq: Word, draw: Word): Option<Word> {
    if freq >= MAX_FREQ then None
    else if freq <= 16 || Drawn(freq, draw) then Some(WithFreq(w, freq + 1))
    else None
  }

  lemma DrawnEvenly(freq: Word, draw: Word)
    requires freq != 0
    ensures Drawn(freq, draw) <==> draw % freq == 0
  {
  }

  lemma CountsWhen(w: Word, freq: Word, draw: Word)
    ensures TryUpdateFreq(w, freq, draw).Some? <==> freq < 127 && (freq <= 16 || Drawn(freq, draw))
    ensures TryUpdateFreq(w, freq, draw).Some? ==> TryUpdateFreq(w, freq, draw).value == WithFreq(w, freq + 1)
  {
    hide WithFreq, Drawn;
  }

  /**
   * Counting an access adds one to the frequency and keeps the entry; it happens
   * always up to 16, then for one draw in as many as the frequency, and never
   * from 127 on.
   */
  lemma CountingIsBounded(w: Word, draw: Word)
    ensures var r := TryUpdateFreq(w, FreqOf(w), draw);
      && (r.Some? ==>
            && FreqOf(r.value) == FreqOf(w) + 1 <= 127
            && TagOf(r.value) == TagOf(w) && LocationOf(r.value) == LocationOf(w))
      && (r.Some? <==> FreqOf(w) < 127 && (FreqOf(w) <= 16 || Drawn(FreqOf(w), draw)))
  {
    hide FreqOf, TagOf, LocationOf, WithFreq, Drawn;
    CountsWhen(w, FreqOf(w), draw);
    if FreqOf(w) < MAX_FREQ { WithFreqChangesOnlyFreq(w, FreqOf(w) + 1); }
  }
}
