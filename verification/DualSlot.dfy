/** The crash-safe configuration store: two flash pages, one save at a time, power loss at any
    point. */
module DualSlot {
  import opened Bytes
  import opened Wrappers
  import Crc32

  const PAGE_SIZE := 256
  const PAGE_WORDS := 64
  const CONFIG_SIZE := 20
  const BODY_SIZE := 32
  const RECORD_SIZE := 36

  type Page = p: seq<byte> | |p| == PAGE_SIZE witness seq(PAGE_SIZE, i => 0xFF)
  type Config = c: seq<byte> | |c| == CONFIG_SIZE witness seq(CONFIG_SIZE, i => 0)
  type Record = r: seq<byte> | |r| == RECORD_SIZE witness seq(RECORD_SIZE, i => 0)

  function Blank(): Page {
    seq(PAGE_SIZE, i => 0xFF)
  }

  /** ASCII 'RURP' as a little-endian word. */
  const MAGIC: seq<byte> := [0x50, 0x52, 0x55, 0x52]

  // ----- The record: magic, version, length, configuration, sequence, checksum -----

  function RecordOf(p: Page): Record { p[..RECORD_SIZE] }
  function Magic(r: Record): seq<byte> { r[0..4] }
  function Length(r: Record): uint16 { r[6] + 0x100 * (r[7] as int) }
  function ConfigOf(r: Record): Config { r[8..28] }
  function Sequence(r: Record): uint32 {
    (r[28] as int) + 0x100 * (r[29] as int) + 0x1_0000 * (r[30] as int) + 0x100_0000 * (r[31] as int)
  }
  function StoredChecksum(r: Record): seq<byte> { r[32..36] }

  /** The checks in their order: magic, then the length bound, then the checksum. */
  predicate Valid(r: Record, len: nat) {
    && Magic(r) == MAGIC
    && Length(r) <= len
    && StoredChecksum(r) == Crc32.Checksum(r[..BODY_SIZE])
  }

  function WordBytes(x: uint32): seq<byte> {
    [x % 0x100, x / 0x100 % 0x100, x / 0x1_0000 % 0x100, x / 0x100_0000]
  }

  function Body(config: Config, sequence: uint32): (b: seq<byte>)
    ensures |b| == BODY_SIZE
  {
    MAGIC + [1, 0] + [CONFIG_SIZE, 0] + config + WordBytes(sequence)
  }

  function MakeRecord(config: Config, sequence: uint32): Record {
    Body(config, sequence) + Crc32.Checksum(Body(config, sequence))
  }

  /** The page handed to the flash: the record, and 0xFF behind it. */
  function Image(config: Config, sequence: uint32): Page {
    MakeRecord(config, sequence) + seq(PAGE_SIZE - RECORD_SIZE, i => 0xFF)
  }

  lemma WordRoundTrip(x: uint32)
    ensures var w := WordBytes(x);
            (w[0] as int) + 0x100 * (w[1] as int) + 0x1_0000 * (w[2] as int) + 0x100_0000 * (w[3] as int) == x
  {
    assert x == 0x100 * (x / 0x100) + x % 0x100;
    assert x / 0x100 == 0x100 * (x / 0x100 / 0x100) + x / 0x100 % 0x100;
    assert x / 0x100 / 0x100 == x / 0x1_0000;
    assert x / 0x1_0000 == 0x100 * (x / 0x1_0000 / 0x100) + x / 0x1_0000 % 0x100;
    assert x / 0x1_0000 / 0x100 == x / 0x100_0000;
  }

  lemma BodyFields(config: Config, sequence: uint32)
    ensures var b := Body(config, sequence);
            b[0..4] == MAGIC && b[6] == CONFIG_SIZE && b[7] == 0 && b[8..28] == config && b[28..32] == WordBytes(sequence)
  {
  }

  /** A record as written: valid, with the fields that went in. */
  lemma MadeRecord(config: Config, sequence: uint32)
    ensures Valid(MakeRecord(config, sequence), CONFIG_SIZE)
    ensures ConfigOf(MakeRecord(config, sequence)) == config
    ensures Sequence(MakeRecord(config, sequence)) == sequence
    ensures Length(MakeRecord(config, sequence)) == CONFIG_SIZE
    ensures RecordOf(Image(config, sequence)) == MakeRecord(config, sequence)
  {
    var body := Body(config, sequence);
    BodyFields(config, sequence);
    WordRoundTrip(sequence);
    RecordFields(MakeRecord(config, sequence), body, Crc32.Checksum(body));
    var w := body[28..32];
    assert w[0] == body[28] && w[1] == body[29] && w[2] == body[30] && w[3] == body[31];
  }

  lemma RecordFields(r: Record, body: seq<byte>, crc: seq<byte>)
    requires |body| == BODY_SIZE && r == body + crc
    ensures r[..BODY_SIZE] == body && StoredChecksum(r) == crc
    ensures Magic(r) == body[0..4] && ConfigOf(r) == body[8..28]
    ensures r[6] == body[6] && r[7] == body[7]
    ensures r[28] == body[28] && r[29] == body[29] && r[30] == body[30] && r[31] == body[31]
  {
  }

  lemma BlankInvalid(len: nat)
    ensures !Valid(RecordOf(Blank()), len)
  {
    assert Magic(RecordOf(Blank()))[0] == 0xFF;
  }

  /** A record in which exactly one byte has changed never passes. */
  lemma OneByteInvalidates(r: Record, i: nat, b: byte, len: nat)
    requires Valid(r, len) && i < RECORD_SIZE && b != r[i]
    ensures !Valid(r[i := b], len)
  {
    var t: Record := r[i := b];
    if i < BODY_SIZE {
      assert t[..BODY_SIZE] == r[..BODY_SIZE][i := b];
      assert StoredChecksum(t) == StoredChecksum(r);
      Crc32.OneByteChangesChecksum(r[..BODY_SIZE], i, b);
    } else {
      assert t[..BODY_SIZE] == r[..BODY_SIZE];
      assert StoredChecksum(t)[i - BODY_SIZE] != StoredChecksum(r)[i - BODY_SIZE];
    }
  }

  // ----- Choosing the active slot -----

  datatype Scan = NotFound | Found(slot: nat, record: Record)

  type Pages = ps: seq<Page> | |ps| == 2 witness [Blank(), Blank()]

  predicate SlotValid(pages: Pages, slot: nat, len: nat)
    requires slot < 2
  {
    Valid(RecordOf(pages[slot]), len)
  }

  /** The valid slot with the higher sequence; slot 0 on a tie. */
  function ScanSpec(pages: Pages, len: nat): Scan {
    var a, b := SlotValid(pages, 0, len), SlotValid(pages, 1, len);
    if b && (!a || Sequence(RecordOf(pages[1])) > Sequence(RecordOf(pages[0]))) then Found(1, RecordOf(pages[1]))
    else if a then Found(0, RecordOf(pages[0]))
    else NotFound
  }

  /** What a load returns: the first bytes of the caller's buffer, as many as the record holds. */
  function LoadSpec(pages: Pages, len: nat): Option<seq<byte>>
    requires CopyInside(pages, len)
  {
    match ScanSpec(pages, len)
    case NotFound => None
    case Found(_, r) => Some(ConfigOf(r)[..CopyLength(r, len)])
  }

  function CopyLength(r: Record, len: nat): nat {
    if Length(r) < len then Length(r) else len
  }

  /** The copy stays inside the configuration of the record. It always does for a buffer no
      longer than a configuration. */
  predicate CopyInside(pages: Pages, len: nat) {
    match ScanSpec(pages, len)
    case NotFound => true
    case Found(_, r) => CopyLength(r, len) <= CONFIG_SIZE
  }

  // ----- One save, cut anywhere -----

  /** How a save ends: the erase refuses and leaves the page, power fails during the erase and
      leaves garbage, or the program stops after some words and reports success or not. */
  datatype Cut =
    | EraseRefused
    | EraseTorn(garbage: Page)
    | Stopped(words: nat, reported: bool)

  /** The page when the program stopped after `words` words. */
  function Torn(image: Page, words: nat): Page
    requires words <= PAGE_WORDS
  {
    image[..4 * words] + Blank()[4 * words..]
  }

  function NextSequence(scan: Scan): uint32 {
    match scan
    case NotFound => 1
    case Found(_, r) => (Sequence(r) + 1) % 0x1_0000_0000
  }

  function InactiveSlot(scan: Scan): nat {
    match scan
    case NotFound => 0
    case Found(slot, _) => if slot == 0 then 1 else 0
  }

  predicate PossibleCut(cut: Cut) {
    cut.Stopped? ==> cut.words <= PAGE_WORDS && (cut.reported ==> cut.words == PAGE_WORDS)
  }

  function SaveSpec(pages: Pages, config: Config, cut: Cut): (Pages, bool)
    requires PossibleCut(cut)
  {
    var scan := ScanSpec(pages, CONFIG_SIZE);
    var slot := InactiveSlot(scan);
    match cut
    case EraseRefused => (pages, false)
    case EraseTorn(garbage) => (pages[slot := garbage], false)
    case Stopped(words, reported) => (pages[slot := Torn(Image(config, NextSequence(scan)), words)], reported)
  }

  /** The record a save writes is complete on flash after this cut. */
  predicate Complete(pages: Pages, config: Config, cut: Cut)
    requires PossibleCut(cut)
  {
    var image := Image(config, NextSequence(ScanSpec(pages, CONFIG_SIZE)));
    cut.Stopped? && RecordOf(Torn(image, cut.words)) == RecordOf(image)
  }

  /** No unfinished page passes its checksum by coincidence. */
  predicate NoCoincidence(pages: Pages, config: Config, cut: Cut)
    requires PossibleCut(cut)
  {
    match cut
    case EraseRefused => true
    case EraseTorn(garbage) => !Valid(RecordOf(garbage), CONFIG_SIZE)
    case Stopped(words, _) =>
      var image := Image(config, NextSequence(ScanSpec(pages, CONFIG_SIZE)));
      Valid(RecordOf(Torn(image, words)), CONFIG_SIZE) ==> Complete(pages, config, cut)
  }

  /** Nine whole words hold the record. */
  lemma NineWordsComplete(pages: Pages, config: Config, cut: Cut)
    requires PossibleCut(cut) && cut.Stopped? && cut.words >= 9
    ensures Complete(pages, config, cut)
  {
  }

  /** With no word written there is nothing to mistake for a record. */
  lemma BlankIsNeverComplete(pages: Pages, config: Config, cut: Cut)
    requires cut == Stopped(0, false)
    ensures !Complete(pages, config, cut) && NoCoincidence(pages, config, cut)
  {
    var image := Image(config, NextSequence(ScanSpec(pages, CONFIG_SIZE)));
    assert Torn(image, 0) == Blank();
    BlankInvalid(CONFIG_SIZE);
    MadeRecord(config, NextSequence(ScanSpec(pages, CONFIG_SIZE)));
  }

  /** The active slot is never erased or programmed. */
  lemma ActiveSlotUntouched(pages: Pages, config: Config, cut: Cut)
    requires PossibleCut(cut)
    ensures var scan := ScanSpec(pages, CONFIG_SIZE);
            scan.Found? ==> SaveSpec(pages, config, cut).0[scan.slot] == pages[scan.slot]
  {
  }

  /** Valid slots never share a sequence. */
  predicate DistinctSequences(pages: Pages) {
    SlotValid(pages, 0, CONFIG_SIZE) && SlotValid(pages, 1, CONFIG_SIZE) ==>
      Sequence(RecordOf(pages[0])) != Sequence(RecordOf(pages[1]))
  }

  /** The record that a save of `config` completes on top of `pages`. */
  function Intended(pages: Pages, config: Config): Record {
    MakeRecord(config, NextSequence(ScanSpec(pages, CONFIG_SIZE)))
  }

  /** Replacing the inactive page by something invalid changes nothing. */
  lemma InvalidReplacement(pages: Pages, page: Page)
    requires !Valid(RecordOf(page), CONFIG_SIZE)
    ensures var scan := ScanSpec(pages, CONFIG_SIZE);
            var pages' := pages[InactiveSlot(scan) := page];
            ScanSpec(pages', CONFIG_SIZE) == scan && DistinctSequences(pages')
  {
  }

  /** Replacing the inactive page by a newer valid record makes that record active. */
  lemma NewerReplacement(pages: Pages, page: Page)
    requires Valid(RecordOf(page), CONFIG_SIZE) && Sequence(RecordOf(page)) > ActiveSequence(pages)
    ensures var slot := InactiveSlot(ScanSpec(pages, CONFIG_SIZE));
            var pages' := pages[slot := page];
            ScanSpec(pages', CONFIG_SIZE) == Found(slot, RecordOf(page)) && DistinctSequences(pages')
  {
  }

  lemma IntendedFields(pages: Pages, config: Config)
    requires ActiveSequence(pages) + 1 < 0x1_0000_0000
    ensures var r := Intended(pages, config);
            && Valid(r, CONFIG_SIZE) && ConfigOf(r) == config && Length(r) == CONFIG_SIZE
            && Sequence(r) == ActiveSequence(pages) + 1
            && RecordOf(Image(config, NextSequence(ScanSpec(pages, CONFIG_SIZE)))) == r
  {
    NextIsOneMore(pages);
    MadeRecord(config, NextSequence(ScanSpec(pages, CONFIG_SIZE)));
  }

  lemma NextIsOneMore(pages: Pages)
    requires ActiveSequence(pages) + 1 < 0x1_0000_0000
    ensures NextSequence(ScanSpec(pages, CONFIG_SIZE)) == ActiveSequence(pages) + 1
  {
  }

  /** Replacing the inactive page by one that holds `record`, newer and valid, or nothing valid. */
  lemma Replacement(pages: Pages, page: Page, record: Record)
    requires Valid(record, CONFIG_SIZE) && Sequence(record) > ActiveSequence(pages)
    requires Valid(RecordOf(page), CONFIG_SIZE) ==> RecordOf(page) == record
    ensures var scan := ScanSpec(pages, CONFIG_SIZE);
            var pages' := pages[InactiveSlot(scan) := page];
            && DistinctSequences(pages')
            && ScanSpec(pages', CONFIG_SIZE)
               == if RecordOf(page) == record then Found(InactiveSlot(scan), record) else scan
  {
    if RecordOf(page) == record {
      NewerReplacement(pages, page);
    } else {
      InvalidReplacement(pages, page);
    }
  }

  /** After a save the active record is the new one if it is complete on flash, and otherwise
      the one that was active before. */
  lemma SaveSwitchesOnCompletion(pages: Pages, config: Config, cut: Cut)
    requires PossibleCut(cut) && NoCoincidence(pages, config, cut) && DistinctSequences(pages)
    requires ActiveSequence(pages) + 1 < 0x1_0000_0000
    ensures var scan, scan' := ScanSpec(pages, CONFIG_SIZE), ScanSpec(SaveSpec(pages, config, cut).0, CONFIG_SIZE);
            && DistinctSequences(SaveSpec(pages, config, cut).0)
            && if Complete(pages, config, cut) then scan' == Found(InactiveSlot(scan), Intended(pages, config))
               else scan' == scan
  {
    match cut
    case EraseRefused =>
    case EraseTorn(garbage) =>
      InvalidReplacement(pages, garbage);
    case Stopped(words, reported) =>
      IntendedFields(pages, config);
      var page := Torn(Image(config, NextSequence(ScanSpec(pages, CONFIG_SIZE))), words);
      assert Complete(pages, config, cut) <==> RecordOf(page) == Intended(pages, config);
      Replacement(pages, page, Intended(pages, config));
  }

  /** What a save does to the store as a whole. */
  lemma SaveStep(pages: Pages, config: Config, cut: Cut)
    requires PossibleCut(cut) && NoCoincidence(pages, config, cut)
    requires DistinctSequences(pages) && ActiveIsWhole(pages)
    requires ActiveSequence(pages) + 1 < 0x1_0000_0000
    ensures var next := SaveSpec(pages, config, cut).0;
            && DistinctSequences(next) && ActiveIsWhole(next)
            && ActiveSequence(next) <= ActiveSequence(pages) + 1
            && LoadSpec(next, CONFIG_SIZE)
               == if Complete(pages, config, cut) then Some(config) else LoadSpec(pages, CONFIG_SIZE)
  {
    var next := SaveSpec(pages, config, cut).0;
    SaveSwitchesOnCompletion(pages, config, cut);
    if Complete(pages, config, cut) {
      IntendedFields(pages, config);
      WholeRecordLoads(next, InactiveSlot(ScanSpec(pages, CONFIG_SIZE)), Intended(pages, config), config);
    } else {
      SameScanSameStore(pages, next);
    }
  }

  lemma WholeRecordLoads(pages: Pages, slot: nat, record: Record, config: seq<byte>)
    requires ScanSpec(pages, CONFIG_SIZE) == Found(slot, record)
    requires ConfigOf(record) == config && Length(record) == CONFIG_SIZE
    ensures LoadSpec(pages, CONFIG_SIZE) == Some(config) && ActiveIsWhole(pages)
    ensures ActiveSequence(pages) == Sequence(record)
  {
    assert |config| == CONFIG_SIZE && config[..CONFIG_SIZE] == config;
  }

  lemma SameScanSameStore(pages: Pages, pages': Pages)
    requires ScanSpec(pages, CONFIG_SIZE) == ScanSpec(pages', CONFIG_SIZE)
    ensures LoadSpec(pages, CONFIG_SIZE) == LoadSpec(pages', CONFIG_SIZE)
    ensures ActiveSequence(pages) == ActiveSequence(pages')
    ensures ActiveIsWhole(pages) == ActiveIsWhole(pages')
  {
  }

  // ----- Whole runs -----

  datatype Attempt = Attempt(config: Config, cut: Cut)

  predicate PossibleRun(attempts: seq<Attempt>) {
    forall a :: a in attempts ==> PossibleCut(a.cut)
  }

  function Run(pages: Pages, attempts: seq<Attempt>): Pages
    requires PossibleRun(attempts)
    decreases |attempts|
  {
    if attempts == [] then pages
    else Run(SaveSpec(pages, attempts[0].config, attempts[0].cut).0, attempts[1..])
  }

  /** No unfinished page of the run passes its checksum by coincidence. */
  predicate RunWithoutCoincidence(pages: Pages, attempts: seq<Attempt>)
    requires PossibleRun(attempts)
    decreases |attempts|
  {
    attempts != [] ==>
      && NoCoincidence(pages, attempts[0].config, attempts[0].cut)
      && RunWithoutCoincidence(SaveSpec(pages, attempts[0].config, attempts[0].cut).0, attempts[1..])
  }

  /** The configuration of the last save of the run that was complete on flash, or `before`. */
  function LastComplete(pages: Pages, attempts: seq<Attempt>, before: Option<seq<byte>>): Option<seq<byte>>
    requires PossibleRun(attempts)
    decreases |attempts|
  {
    if attempts == [] then before
    else
      var a := attempts[0];
      LastComplete(SaveSpec(pages, a.config, a.cut).0, attempts[1..],
                   if Complete(pages, a.config, a.cut) then Some(a.config) else before)
  }

  /** The sequence in force, 0 before the first save. */
  function ActiveSequence(pages: Pages): nat {
    match ScanSpec(pages, CONFIG_SIZE)
    case NotFound => 0
    case Found(_, r) => Sequence(r)
  }

  /** The active record holds a whole configuration. */
  predicate ActiveIsWhole(pages: Pages) {
    match ScanSpec(pages, CONFIG_SIZE)
    case NotFound => true
    case Found(_, r) => Length(r) == CONFIG_SIZE
  }

  lemma {:induction false} RunLoadsLastComplete(pages: Pages, attempts: seq<Attempt>)
    requires PossibleRun(attempts) && RunWithoutCoincidence(pages, attempts)
    requires DistinctSequences(pages) && ActiveIsWhole(pages)
    requires ActiveSequence(pages) + |attempts| < 0x1_0000_0000
    ensures DistinctSequences(Run(pages, attempts))
    ensures LoadSpec(Run(pages, attempts), CONFIG_SIZE) == LastComplete(pages, attempts, LoadSpec(pages, CONFIG_SIZE))
    decreases |attempts|
  {
    if attempts != [] {
      var a := attempts[0];
      SaveStep(pages, a.config, a.cut);
      RunLoadsLastComplete(SaveSpec(pages, a.config, a.cut).0, attempts[1..]);
    }
  }

  /** Crash safety: from a store with no valid record, after any saves, each completed or cut
      anywhere, load returns the configuration of the last save that was complete on flash, and
      nothing if there was none. */
  lemma CrashSafety(pages: Pages, attempts: seq<Attempt>)
    requires !SlotValid(pages, 0, CONFIG_SIZE) && !SlotValid(pages, 1, CONFIG_SIZE)
    requires PossibleRun(attempts) && RunWithoutCoincidence(pages, attempts)
    requires |attempts| < 0x1_0000_0000
    ensures LoadSpec(Run(pages, attempts), CONFIG_SIZE) == LastComplete(pages, attempts, None)
    ensures DistinctSequences(Run(pages, attempts))
  {
    RunLoadsLastComplete(pages, attempts);
  }

  /** A save that returned true is the one that the next load returns. */
  lemma ReportedSaveIsLoaded(pages: Pages, config: Config, cut: Cut)
    requires PossibleCut(cut) && NoCoincidence(pages, config, cut)
    requires DistinctSequences(pages) && ActiveIsWhole(pages)
    requires ActiveSequence(pages) + 1 < 0x1_0000_0000
    requires SaveSpec(pages, config, cut).1
    ensures var loaded := LoadSpec(SaveSpec(pages, config, cut).0, CONFIG_SIZE);
            loaded.Some? && loaded.value == config
  {
    NineWordsComplete(pages, config, cut);
    SaveStep(pages, config, cut);
  }

  /** A save that nothing disturbs reports success and is the one loaded; a refused or torn erase
      and a failed program are reported as failures. */
  lemma UndisturbedSave(pages: Pages, config: Config, cut: Cut)
    requires PossibleCut(cut) && DistinctSequences(pages) && ActiveIsWhole(pages)
    requires ActiveSequence(pages) + 1 < 0x1_0000_0000
    ensures SaveSpec(pages, config, cut).1 <==> cut == Stopped(64, true)
    ensures var loaded := LoadSpec(SaveSpec(pages, config, Stopped(64, true)).0, CONFIG_SIZE);
            loaded.Some? && loaded.value == config
  {
    NineWordsComplete(pages, config, Stopped(64, true));
    ReportedSaveIsLoaded(pages, config, Stopped(64, true));
  }

  /** The bound on the sequence is needed: the save after sequence 2^32 - 1 reports success, and
      load keeps returning the configuration before it. */
  lemma WrappedSaveIsLost(pages: Pages, config: Config)
    requires ActiveSequence(pages) == 0xFFFF_FFFF
    ensures var result := SaveSpec(pages, config, Stopped(PAGE_WORDS, true));
            result.1 && LoadSpec(result.0, CONFIG_SIZE) == LoadSpec(pages, CONFIG_SIZE)
  {
    assert NextSequence(ScanSpec(pages, CONFIG_SIZE)) == 0;
    WholeImage(config, 0);
    OlderReplacement(pages, Torn(Image(config, 0), PAGE_WORDS));
    SameScanSameStore(pages, SaveSpec(pages, config, Stopped(PAGE_WORDS, true)).0);
  }

  lemma WholeImage(config: Config, sequence: uint32)
    ensures Torn(Image(config, sequence), PAGE_WORDS) == Image(config, sequence)
    ensures Valid(RecordOf(Image(config, sequence)), CONFIG_SIZE)
    ensures Sequence(RecordOf(Image(config, sequence))) == sequence
  {
    MadeRecord(config, sequence);
  }

  /** Replacing the inactive page by an older valid record changes nothing. */
  lemma OlderReplacement(pages: Pages, page: Page)
    requires Valid(RecordOf(page), CONFIG_SIZE) && Sequence(RecordOf(page)) < ActiveSequence(pages)
    ensures var scan := ScanSpec(pages, CONFIG_SIZE);
            ScanSpec(pages[InactiveSlot(scan) := page], CONFIG_SIZE) == scan
  {
  }

  // ----- The firmware's own form -----

  class Flash {
    var pages: Pages

    constructor (pages: Pages)
      ensures this.pages == pages
    {
      this.pages := pages;
    }

    method ScanSlots(len: nat) returns (result: Scan)
      ensures result == ScanSpec(pages, len)
    {
      result := NotFound;
      for slot := 0 to 2
        invariant slot == 0 ==> result == NotFound
        invariant slot == 1 ==> result == if SlotValid(pages, 0, len) then Found(0, RecordOf(pages[0])) else NotFound
        invariant slot == 2 ==> result == ScanSpec(pages, len)
      {
        var candidate := RecordOf(pages[slot]);
        if !Valid(candidate, len) {
          continue;
        }
        if result.NotFound? || Sequence(candidate) > Sequence(result.record) {
          result := Found(slot, candidate);
        }
      }
    }

    /** Copy the active configuration over the front of the caller's buffer. */
    method Load(blob: array<byte>) returns (ok: bool)
      requires CopyInside(pages, blob.Length)
      modifies blob
      ensures ok == LoadSpec(pages, blob.Length).Some?
      ensures !ok ==> blob[..] == old(blob[..])
      ensures ok ==> var bytes := LoadSpec(pages, blob.Length).value;
                     |bytes| <= blob.Length && blob[..] == bytes + old(blob[|bytes|..])
    {
      var best := ScanSlots(blob.Length);
      if best.NotFound? {
        return false;
      }
      var config := ConfigOf(best.record);
      var n := if Length(best.record) < blob.Length then Length(best.record) else blob.Length;
      for i := 0 to n
        invariant blob[..i] == config[..i]
        invariant blob[i..] == old(blob[i..])
      {
        blob[i] := config[i];
      }
      assert blob[..] == config[..n] + blob[n..];
      return true;
    }

    method ErasePage(slot: nat, cut: Cut) returns (ok: bool)
      requires slot < 2
      modifies this
      ensures ok == cut.Stopped?
      ensures pages == match cut
                       case EraseRefused => old(pages)
                       case EraseTorn(garbage) => old(pages)[slot := garbage]
                       case Stopped(_, _) => old(pages)[slot := Blank()]
    {
      match cut {
        case EraseRefused => return false;
        case EraseTorn(garbage) =>
          pages := pages[slot := garbage];
          return false;
        case Stopped(_, _) =>
          pages := pages[slot := Blank()];
          return true;
      }
    }

    /** The whole-page program, one word after the other, on a page that was just erased. */
    method ProgramPage(slot: nat, image: Page, words: nat, reported: bool) returns (ok: bool)
      requires slot < 2 && words <= PAGE_WORDS && pages[slot] == Blank()
      modifies this
      ensures pages == old(pages)[slot := Torn(image, words)] && ok == reported
    {
      assert Torn(image, 0) == Blank();
      assert pages == pages[slot := Torn(image, 0)];
      for w := 0 to words
        invariant pages == old(pages)[slot := Torn(image, w)]
      {
        var page := pages[slot];
        var next: Page := page[..4 * w] + image[4 * w..4 * w + 4] + page[4 * w + 4..];
        assert next == Torn(image, w + 1);
        pages := pages[slot := next];
      }
      return reported;
    }

    method Save(config: Config, cut: Cut) returns (ok: bool)
      requires PossibleCut(cut)
      modifies this
      ensures (pages, ok) == SaveSpec(old(pages), config, cut)
    {
      var active := ScanSlots(CONFIG_SIZE);
      var inactive, sequence := Target(active);
      var page := StagePage(config, sequence);
      ok := WritePage(inactive, page, cut);
    }

    /** Erase a page and program it whole. */
    method WritePage(slot: nat, page: Page, cut: Cut) returns (ok: bool)
      requires slot < 2 && PossibleCut(cut)
      modifies this
      ensures ok == (cut.Stopped? && cut.reported)
      ensures pages == match cut
                       case EraseRefused => old(pages)
                       case EraseTorn(garbage) => old(pages)[slot := garbage]
                       case Stopped(words, _) => old(pages)[slot := Torn(page, words)]
    {
      ok := ErasePage(slot, cut);
      if ok {
        ok := ProgramPage(slot, page, cut.words, cut.reported);
      }
    }
  }

  /** The slot and the sequence of the next save. */
  method Target(active: Scan) returns (inactive: nat, sequence: uint32)
    requires active.Found? ==> active.slot < 2
    ensures inactive == InactiveSlot(active) < 2 && sequence == NextSequence(active)
  {
    inactive := if active.Found? then 1 - active.slot else 0;
    sequence := if active.Found? then (Sequence(active.record) + 1) % 0x1_0000_0000 else 1;
  }

  /** Build the whole page: the record with its checksum over a page of 0xFF. */
  method StagePage(config: Config, sequence: uint32) returns (page: Page)
    ensures page == Image(config, sequence)
  {
    var body := Body(config, sequence);
    var staged := new byte[BODY_SIZE](i requires 0 <= i < BODY_SIZE => body[i]);
    var crc := Crc32.Compute(staged, BODY_SIZE);
    assert staged[..BODY_SIZE] == body;
    var record := body + Crc32.WordBytes(crc);
    page := record + seq(PAGE_SIZE - RECORD_SIZE, i => 0xFF);
  }
}
