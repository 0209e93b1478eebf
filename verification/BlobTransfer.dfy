/**
 Passing a blob between the daemon and a plugin process over a byte channel: its size, then
 its pages, each a serialized byte array; the receiver reads one array an event.
 */
module BlobTransfer {

  // ---------------------------------------------------------------- Data model

  newtype Byte = x: int | 0 <= x < 256

  type Blob = seq<Byte>

  const PAGE_SIZE := 16384
  const WORD_LIMIT := 0x1_0000_0000
  const INT_LIMIT := 0x8000_0000

  /** The length of a null byte array. */
  const NULL_LENGTH := 0xffff_ffff

  /** Sizes of byte arrays are ints. */
  predicate Sizable(blob: Blob) {
    |blob| < INT_LIMIT
  }

  // -------------------------------------------------------------- Serialization

  /** A 32-bit number, most significant byte first. */
  function Word(n: nat): (w: seq<Byte>)
    requires n < WORD_LIMIT
    ensures |w| == 4
  {
    [(n / 0x100_0000) as Byte, (n / 0x1_0000 % 0x100) as Byte, (n / 0x100 % 0x100) as Byte, (n % 0x100) as Byte]
  }

  function Value(w: seq<Byte>): (n: nat)
    requires |w| >= 4
    ensures n < WORD_LIMIT
  {
    w[0] as int * 0x100_0000 + w[1] as int * 0x1_0000 + w[2] as int * 0x100 + w[3] as int
  }

  /** The same bits read as a signed number. */
  function AsInt(n: nat): int {
    if n < INT_LIMIT then n else n - WORD_LIMIT
  }

  lemma WordValue(n: nat, rest: seq<Byte>)
    requires n < WORD_LIMIT
    ensures Value(Word(n) + rest) == n && (Word(n) + rest)[4..] == rest
  {
    WordDigits(n);
  }

  lemma WordDigits(n: nat)
    ensures n == n / 0x100_0000 * 0x100_0000 + n / 0x1_0000 % 0x100 * 0x1_0000 + n / 0x100 % 0x100 * 0x100 + n % 0x100
  {
    assert n / 0x100 / 0x100 == n / 0x1_0000 && n / 0x1_0000 / 0x100 == n / 0x100_0000;
  }

  // -------------------------------------------------------------------- Paging

  function Min(a: int, b: int): int {
    if a <= b then a else b
  }

  predicate ArePages(pages: seq<Blob>) {
    forall page <- pages :: 0 < |page| <= PAGE_SIZE
  }

  function Pages(blob: Blob): (pages: seq<Blob>)
    ensures ArePages(pages)
  {
    if blob == [] then []
    else [blob[..Min(PAGE_SIZE, |blob|)]] + Pages(blob[Min(PAGE_SIZE, |blob|)..])
  }

  function Join(pages: seq<Blob>): Blob {
    if pages == [] then [] else pages[0] + Join(pages[1..])
  }

  /** A byte array in the channel: its length and its bytes. */
  function Array(page: Blob): seq<Byte>
    requires |page| <= PAGE_SIZE
  {
    Word(|page|) + page
  }

  function Stream(pages: seq<Blob>): seq<Byte>
    requires ArePages(pages)
  {
    if pages == [] then [] else Array(pages[0]) + Stream(pages[1..])
  }

  function Sent(blob: Blob): seq<Byte>
    requires Sizable(blob)
  {
    Word(|blob|) + Stream(Pages(blob))
  }

  /** As few pages as the size allows. */
  lemma {:induction false} PageCount(blob: Blob)
    ensures |Pages(blob)| == (|blob| + PAGE_SIZE - 1) / PAGE_SIZE
    decreases |blob|
  {
    if blob != [] {
      PageCount(blob[Min(PAGE_SIZE, |blob|)..]);
    }
  }

  /** Page `k` is the k-th stretch of the blob: every page but the last is full, none is empty. */
  lemma {:induction false} PageAt(blob: Blob, k: nat)
    requires k < |Pages(blob)|
    ensures k * PAGE_SIZE < |blob|
    ensures Pages(blob)[k] == blob[k * PAGE_SIZE..Min((k + 1) * PAGE_SIZE, |blob|)]
    ensures 0 < |Pages(blob)[k]| <= PAGE_SIZE
    decreases k
  {
    if k > 0 {
      var end := Min(PAGE_SIZE, |blob|);
      var tail := blob[end..];
      assert Pages(blob) == [blob[..end]] + Pages(tail);
      PageAt(tail, k - 1);
      hide Pages;
      assert |tail| > 0 && end == PAGE_SIZE && |tail| == |blob| - PAGE_SIZE;
      SliceOfTail(blob, end, (k - 1) * PAGE_SIZE, Min(k * PAGE_SIZE, |tail|));
    }
  }

  lemma {:induction false} SliceOfTail(blob: Blob, start: nat, i: nat, j: nat)
    requires i <= j && start + j <= |blob|
    ensures blob[start..][i..j] == blob[start + i..start + j]
  {
  }

  lemma {:induction false} PagesJoin(blob: Blob)
    ensures Join(Pages(blob)) == blob
    decreases |blob|
  {
    if blob != [] {
      PagesJoin(blob[Min(PAGE_SIZE, |blob|)..]);
      assert Pages(blob)[1..] == Pages(blob[Min(PAGE_SIZE, |blob|)..]);
    }
  }

  lemma {:induction false} StreamHoldsBlob(blob: Blob)
    ensures |Stream(Pages(blob))| >= |blob|
    decreases |blob|
  {
    if blob != [] {
      StreamHoldsBlob(blob[Min(PAGE_SIZE, |blob|)..]);
      assert Pages(blob)[1..] == Pages(blob[Min(PAGE_SIZE, |blob|)..]);
    }
  }

  lemma StreamFrom(pages: seq<Blob>, k: nat)
    requires ArePages(pages) && k < |pages|
    ensures ArePages(pages[k..]) && ArePages(pages[k + 1..]) && |pages[k]| <= PAGE_SIZE
    ensures Stream(pages[k..]) == Array(pages[k]) + Stream(pages[k + 1..])
  {
    assert pages[k..][1..] == pages[k + 1..];
  }

  // ------------------------------------------------------------------ Receiving

  datatype Receiver = Receiver(
    channel: seq<Byte>,      // what can be read
    buffer: Blob,            // m_blobBuffer
    size: int,               // m_blobSize
    notify: bool,            // read notification enabled
    delivered: seq<Blob>,    // dataReceived signals, by their blobs
    errors: nat)             // error signals

  function ArrayLength(channel: seq<Byte>): nat
    requires |channel| >= 4
  {
    if Value(channel) == NULL_LENGTH then 0 else Value(channel)
  }

  /** Whether a whole byte array has arrived. */
  predicate WholeArray(channel: seq<Byte>) {
    |channel| >= 4 && |channel| - 4 >= ArrayLength(channel)
  }

  /** The byte array read next; reading past the end yields an empty one. */
  function Fraction(channel: seq<Byte>): Blob {
    if WholeArray(channel) then channel[4..4 + ArrayLength(channel)] else []
  }

  /** Reading past the end takes all there is. */
  function AfterFraction(channel: seq<Byte>): seq<Byte> {
    if WholeArray(channel) then channel[4 + ArrayLength(channel)..] else []
  }

  /** A fraction joins the buffer. */
  function Append(r: Receiver, fraction: Blob): Receiver {
    var s := r.(buffer := r.buffer + fraction);
    if fraction == [] && |s.buffer| < s.size then s.(notify := false, errors := s.errors + 1)
    else if |s.buffer| == s.size then
      s.(notify := if s.size > PAGE_SIZE then false else s.notify, delivered := s.delivered + [s.buffer])
    else s
  }

  function ReadBlob(r: Receiver): Receiver {
    Append(r.(channel := AfterFraction(r.channel)), Fraction(r.channel))
  }

  function ReceiveData(r: Receiver, expected: int): Receiver {
    ReadBlob(r.(buffer := [], size := expected, notify := if expected > PAGE_SIZE then true else r.notify))
  }

  /** Some bytes arrive, or the channel says that it can be read. */
  datatype Event = Arrive(bytes: seq<Byte>) | Ready

  function Step(r: Receiver, e: Event): Receiver {
    match e
    case Arrive(bytes) => r.(channel := r.channel + bytes)
    case Ready => if r.notify then ReadBlob(r) else r
  }

  function Run(r: Receiver, events: seq<Event>): Receiver
    decreases |events|
  {
    if events == [] then r else Run(Step(r, events[0]), events[1..])
  }

  function Arrivals(events: seq<Event>): seq<Byte> {
    if events == [] then []
    else (if events[0].Arrive? then events[0].bytes else []) + Arrivals(events[1..])
  }

  function Reads(events: seq<Event>): nat {
    if events == [] then 0 else (if events[0].Ready? then 1 else 0) + Reads(events[1..])
  }

  datatype Transfer = Transfer(
    blob: Blob,
    before: Receiver,        // when receiveData was called
    rest: seq<Byte>)         // what the sender writes after the blob

  /** The first `k` pages of a blob. */
  function Prefix(blob: Blob, k: nat): Blob {
    blob[..Min(k * PAGE_SIZE, |blob|)]
  }

  /** `k` pages read, `future` still to arrive: the buffer is the first pages, the other pages
      and all that follows are unread. */
  ghost predicate Partial(t: Transfer, r: Receiver, k: nat, future: seq<Byte>) {
    && k <= |Pages(t.blob)|
    && r.size == |t.blob|
    && r.buffer == Prefix(t.blob, k)
    && r.channel + future == Stream(Pages(t.blob)[k..]) + t.rest
  }

  /** Under way or delivered: nothing has gone wrong. */
  ghost predicate Healthy(t: Transfer, r: Receiver, k: nat, future: seq<Byte>) {
    && Partial(t, r, k, future)
    && (r.notify <==> k < |Pages(t.blob)|)
    && r.delivered == t.before.delivered + (if k == |Pages(t.blob)| then [t.blob] else [])
    && r.errors == t.before.errors
  }

  /** Given up before the last page. */
  ghost predicate Failed(t: Transfer, r: Receiver) {
    && r.buffer < t.blob
    && !r.notify && r.delivered == t.before.delivered && r.errors == t.before.errors + 1
  }

  /** The channel before page `k`: the page is there, whole, or reading comes out empty. */
  lemma PageArrives(page: Blob, channel: seq<Byte>, future: seq<Byte>, tail: seq<Byte>)
    requires 0 < |page| <= PAGE_SIZE
    requires channel + future == Array(page) + tail
    ensures WholeArray(channel) ==> Fraction(channel) == page && AfterFraction(channel) + future == tail
    ensures !WholeArray(channel) ==> Fraction(channel) == []
  {
    var all := channel + future;
    WordValue(|page|, page + tail);
    assert all == Word(|page|) + (page + tail);
    if |channel| >= 4 {
      assert channel[0] == all[0] && channel[1] == all[1] && channel[2] == all[2] && channel[3] == all[3];
      assert Value(channel) == |page|;
      if WholeArray(channel) {
        assert channel[4..4 + |page|] == all[4..4 + |page|] == page;
        assert channel[4 + |page|..] + future == all[4 + |page|..] == tail;
      }
    }
  }

  /** Reading page `k` off the channel: it is the page, or has not arrived. */
  lemma ReadPage(pages: seq<Blob>, k: nat, channel: seq<Byte>, future: seq<Byte>, rest: seq<Byte>)
    requires ArePages(pages) && k < |pages|
    requires ArePages(pages[k..]) && channel + future == Stream(pages[k..]) + rest
    ensures ArePages(pages[k + 1..])
    ensures WholeArray(channel) ==>
      Fraction(channel) == pages[k] && AfterFraction(channel) + future == Stream(pages[k + 1..]) + rest
    ensures !WholeArray(channel) ==> Fraction(channel) == []
  {
    StreamFrom(pages, k);
    var tail := Stream(pages[k + 1..]) + rest;
    hide Stream, Array, WholeArray, Fraction, AfterFraction;
    assert channel + future == Array(pages[k]) + tail;
    PageArrives(pages[k], channel, future, tail);
  }

  lemma PageJoins(blob: Blob, k: nat)
    requires k < |Pages(blob)|
    ensures Pages(blob)[k] != [] && Prefix(blob, k) + Pages(blob)[k] == Prefix(blob, k + 1)
    ensures Prefix(blob, k) < blob
  {
    PageAt(blob, k);
    hide Pages;
    assert k * PAGE_SIZE < |blob|;
  }

  /** The buffer is full after the last page, and not before. */
  lemma LastPageFills(blob: Blob, k: nat)
    requires k <= |Pages(blob)|
    ensures |Prefix(blob, k)| == |blob| <==> k == |Pages(blob)|
    ensures k == |Pages(blob)| ==> Prefix(blob, k) == blob
  {
    PageCount(blob);
    if k < |Pages(blob)| {
      PageAt(blob, k);
    }
    hide Pages;
  }

  lemma PageAppends(t: Transfer, r: Receiver, k: nat, future: seq<Byte>)
    requires k < |Pages(t.blob)| && r.size == |t.blob| && r.buffer == Prefix(t.blob, k)
    requires r.channel + future == Stream(Pages(t.blob)[k + 1..]) + t.rest
    requires r.notify <==> |Pages(t.blob)| > 1
    requires r.delivered == t.before.delivered && r.errors == t.before.errors
    ensures Healthy(t, Append(r, Pages(t.blob)[k]), k + 1, future)
  {
    PageJoins(t.blob, k);
    LastPageFills(t.blob, k + 1);
    PageCount(t.blob);
    hide Pages, Stream, Prefix;
    assert r.size > PAGE_SIZE <==> |Pages(t.blob)| > 1;
  }

  lemma NothingAppends(t: Transfer, r: Receiver)
    requires r.size == |t.blob| && r.buffer < t.blob
    requires r.delivered == t.before.delivered && r.errors == t.before.errors
    ensures Failed(t, Append(r, []))
  {
    assert r.buffer + [] == r.buffer;
  }

  lemma ReadKeepsTransfer(t: Transfer, r: Receiver, k: nat, future: seq<Byte>)
    requires Partial(t, r, k, future) && k < |Pages(t.blob)|
    requires r.notify <==> |Pages(t.blob)| > 1
    requires r.delivered == t.before.delivered && r.errors == t.before.errors
    ensures if WholeArray(r.channel) then Healthy(t, ReadBlob(r), k + 1, future) else Failed(t, ReadBlob(r))
  {
    hide Pages, Stream, WholeArray, Fraction, AfterFraction, Prefix, Append, Healthy, Failed;
    var s := r.(channel := AfterFraction(r.channel));
    ReadPage(Pages(t.blob), k, r.channel, future, t.rest);
    if WholeArray(r.channel) {
      PageAppends(t, s, k, future);
    } else {
      PageJoins(t.blob, k);
      NothingAppends(t, s);
    }
  }

  /** What an event adds to the channel. */
  function Bytes(e: Event): seq<Byte> {
    if e.Arrive? then e.bytes else []
  }

  /** The pages read so far, of `n`, after an event. */
  function PagesAfter(n: nat, k: nat, e: Event): nat {
    if e.Arrive? then k else Min(k + 1, n)
  }

  lemma ArrivalKeepsTransfer(t: Transfer, r: Receiver, k: nat, bytes: seq<Byte>, future: seq<Byte>)
    requires Healthy(t, r, k, bytes + future)
    ensures Healthy(t, r.(channel := r.channel + bytes), k, future)
  {
    hide Pages, Stream, Prefix;
    assert (r.channel + bytes) + future == r.channel + (bytes + future);
  }

  /** One event: a transfer goes wrong exactly when it reads and the next page has not come. */
  lemma StepKeepsTransfer(t: Transfer, r: Receiver, k: nat, e: Event, future: seq<Byte>)
    requires k > 0 && Healthy(t, r, k, Bytes(e) + future)
    ensures if e.Ready? && r.notify && !WholeArray(r.channel) then Failed(t, Step(r, e))
            else Healthy(t, Step(r, e), PagesAfter(|Pages(t.blob)|, k, e), future)
  {
    assert [] + future == future;
    HealthyReads(t, r, k, Bytes(e) + future);
    match e
    case Arrive(bytes) =>
      ArrivalKeepsTransfer(t, r, k, bytes, future);
    case Ready =>
      if r.notify {
        ReadKeepsTransfer(t, r, k, future);
      }
    hide Healthy, Failed, Pages, WholeArray, ReadBlob;
  }

  lemma HealthyReads(t: Transfer, r: Receiver, k: nat, future: seq<Byte>)
    requires Healthy(t, r, k, future)
    ensures k <= |Pages(t.blob)| && Partial(t, r, k, future) && (r.notify <==> k < |Pages(t.blob)|)
    ensures r.notify ==> r.delivered == t.before.delivered && r.errors == t.before.errors
    ensures k > 0 && r.notify ==> |Pages(t.blob)| > 1
  {
    hide Pages, Stream, Prefix;
  }

  /** No read finds its byte array incomplete. */
  predicate NeverStarved(r: Receiver, events: seq<Event>)
    decreases |events|
  {
    events == []
    || ((events[0].Ready? && r.notify ==> WholeArray(r.channel)) && NeverStarved(Step(r, events[0]), events[1..]))
  }

  lemma {:induction false} RunKeepsFailure(t: Transfer, r: Receiver, events: seq<Event>)
    requires Failed(t, r)
    ensures Failed(t, Run(r, events))
    decreases |events|
  {
    if events != [] {
      RunKeepsFailure(t, Step(r, events[0]), events[1..]);
    }
  }

  lemma {:induction false} ArrivalsHead(events: seq<Event>, left: seq<Byte>)
    requires events != []
    ensures Arrivals(events) + left == Bytes(events[0]) + (Arrivals(events[1..]) + left)
  {
    assert Arrivals(events) == Bytes(events[0]) + Arrivals(events[1..]);
    hide Arrivals, Bytes;
  }

  lemma {:induction false} RunHead(r: Receiver, events: seq<Event>)
    requires events != []
    ensures Run(r, events) == Run(Step(r, events[0]), events[1..])
  {
    hide Step;
  }

  lemma {:induction false} NeverStarvedHead(r: Receiver, events: seq<Event>)
    requires events != []
    ensures NeverStarved(r, events) <==>
      (events[0].Ready? && r.notify ==> WholeArray(r.channel)) && NeverStarved(Step(r, events[0]), events[1..])
  {
    hide Step, WholeArray;
  }

  lemma {:induction false} ReadsHead(n: nat, k: nat, events: seq<Event>)
    requires events != [] && 0 < k <= n
    ensures PagesAfter(n, k, events[0]) > 0
    ensures Min(k + Reads(events), n) == Min(PagesAfter(n, k, events[0]) + Reads(events[1..]), n)
  {
    var later := Reads(events[1..]);
    assert Reads(events) == (if events[0].Ready? then 1 else 0) + later;
    hide Reads;
  }

  /** The first event of a run. */
  lemma {:induction false} HeadKeepsTransfer(t: Transfer, r: Receiver, k: nat, events: seq<Event>, left: seq<Byte>)
    requires k > 0 && Healthy(t, r, k, Arrivals(events) + left) && events != []
    ensures var s := Step(r, events[0]);
      if events[0].Ready? && r.notify && !WholeArray(r.channel) then Failed(t, s)
      else Healthy(t, s, PagesAfter(|Pages(t.blob)|, k, events[0]), Arrivals(events[1..]) + left)
  {
    hide *;
    ArrivalsHead(events, left);
    StepKeepsTransfer(t, r, k, events[0], Arrivals(events[1..]) + left);
  }

  lemma NothingHappens(t: Transfer, r: Receiver, k: nat, left: seq<Byte>)
    requires Healthy(t, r, k, Arrivals([]) + left)
    ensures Healthy(t, Run(r, []), Min(k + Reads([]), |Pages(t.blob)|), left)
  {
    HealthyReads(t, r, k, Arrivals([]) + left);
    hide Healthy, Pages;
    assert Arrivals([]) + left == left;
  }

  lemma NothingStarves(r: Receiver)
    ensures NeverStarved(r, [])
  {
  }

  lemma {:induction false} RunStaysHealthy(t: Transfer, r: Receiver, k: nat, events: seq<Event>, left: seq<Byte>)
    requires k > 0 && Healthy(t, r, k, Arrivals(events) + left) && NeverStarved(r, events)
    ensures Healthy(t, Run(r, events), Min(k + Reads(events), |Pages(t.blob)|), left)
    decreases |events|
  {
    hide *;
    HealthyReads(t, r, k, Arrivals(events) + left);
    if events == [] {
      NothingHappens(t, r, k, left);
    } else {
      var n, e, rest := |Pages(t.blob)|, events[0], events[1..];
      RunHead(r, events);
      NeverStarvedHead(r, events);
      ReadsHead(n, k, events);
      HeadKeepsTransfer(t, r, k, events, left);
      RunStaysHealthy(t, Step(r, e), PagesAfter(n, k, e), rest, left);
    }
  }

  lemma {:induction false} RunFails(t: Transfer, r: Receiver, k: nat, events: seq<Event>, left: seq<Byte>)
    requires k > 0 && Healthy(t, r, k, Arrivals(events) + left) && events != [] && !NeverStarved(r, events)
    ensures Failed(t, Run(r, events))
    decreases |events|
  {
    hide *;
    HealthyReads(t, r, k, Arrivals(events) + left);
    NothingStarves(Step(r, events[0]));
    var n, e, rest := |Pages(t.blob)|, events[0], events[1..];
    RunHead(r, events);
    NeverStarvedHead(r, events);
    ReadsHead(n, k, events);
    HeadKeepsTransfer(t, r, k, events, left);
    if e.Ready? && r.notify && !WholeArray(r.channel) {
      RunKeepsFailure(t, Step(r, e), rest);
    } else {
      RunFails(t, Step(r, e), PagesAfter(n, k, e), rest, left);
    }
  }

  /** Every run of a transfer, with bytes arriving at any time in any portions: it stays healthy
      exactly while no read comes before its page, and then has read a page an event. */
  lemma {:induction false} RunOfTransfer(t: Transfer, r: Receiver, k: nat, events: seq<Event>, left: seq<Byte>)
    requires k > 0 && Healthy(t, r, k, Arrivals(events) + left)
    ensures NeverStarved(r, events) ==>
      Healthy(t, Run(r, events), Min(k + Reads(events), |Pages(t.blob)|), left)
    ensures !NeverStarved(r, events) ==> Failed(t, Run(r, events))
  {
    hide *;
    NothingStarves(r);
    if NeverStarved(r, events) {
      RunStaysHealthy(t, r, k, events, left);
    } else {
      RunFails(t, r, k, events, left);
    }
  }

  lemma {:induction false} ReceiveStarts(blob: Blob, r: Receiver, future: seq<Byte>, rest: seq<Byte>)
    requires blob != [] && !r.notify
    requires r.channel + future == Stream(Pages(blob)) + rest
    ensures var t := Transfer(blob, r, rest);
      if WholeArray(r.channel) then Healthy(t, ReceiveData(r, |blob|), 1, future)
      else Failed(t, ReceiveData(r, |blob|))
  {
    var t := Transfer(blob, r, rest);
    PageCount(blob);
    hide Pages, Stream, WholeArray, ReadBlob;
    var started := r.(buffer := [], size := |blob|, notify := |blob| > PAGE_SIZE);
    assert Pages(blob)[0..] == Pages(blob);
    ReadKeepsTransfer(t, started, 0, future);
  }

  predicate NeverStarvedFrom(r: Receiver, expected: int, events: seq<Event>) {
    WholeArray(r.channel) && NeverStarved(ReceiveData(r, expected), events)
  }

  lemma HealthyOutcome(t: Transfer, r: Receiver, k: nat, future: seq<Byte>)
    requires Healthy(t, r, k, future)
    ensures r.errors == t.before.errors
    ensures k < |Pages(t.blob)| ==> r.delivered == t.before.delivered && r.buffer < t.blob && r.notify
    ensures k == |Pages(t.blob)| ==>
      r.delivered == t.before.delivered + [t.blob] && !r.notify && r.channel + future == t.rest
  {
    if k < |Pages(t.blob)| {
      PageJoins(t.blob, k);
    } else {
      assert Pages(t.blob)[k..] == [];
    }
  }

  /** The transfer of a blob, whatever the schedule and however the bytes come, `left` being what
      has not come in the end: if no read comes before its page then after as many reads as there
      are pages the blob is delivered, once, and nothing behind it is read; if one does, there is
      one error and never a delivery. */
  lemma {:induction false} TransferDelivers(blob: Blob, r: Receiver, rest: seq<Byte>, events: seq<Event>,
                                            left: seq<Byte>)
    requires blob != [] && !r.notify
    requires r.channel + (Arrivals(events) + left) == Stream(Pages(blob)) + rest
    ensures var last := Run(ReceiveData(r, |blob|), events);
      if !NeverStarvedFrom(r, |blob|, events) then
        last.errors == r.errors + 1 && last.delivered == r.delivered && last.buffer < blob
      else if 1 + Reads(events) >= |Pages(blob)| then
        && last.errors == r.errors && last.delivered == r.delivered + [blob] && !last.notify
        && last.channel + left == rest
      else last.errors == r.errors && last.delivered == r.delivered && last.buffer < blob && last.notify
  {
    hide Healthy, Stream, Pages, Run, ReceiveData, NeverStarved, Arrivals, Reads, WholeArray;
    var future := Arrivals(events) + left;
    var t := Transfer(blob, r, rest);
    ReceiveStarts(blob, r, future, rest);
    var first := ReceiveData(r, |blob|);
    if WholeArray(r.channel) {
      RunOfTransfer(t, first, 1, events, left);
      if NeverStarved(first, events) {
        HealthyReads(t, first, 1, future);
        HealthyOutcome(t, Run(first, events), Min(1 + Reads(events), |Pages(blob)|), left);
      }
    } else {
      RunKeepsFailure(t, first, events);
    }
  }

  // -------------------------------------------------------- Blobs one after the other

  predicate AllSizable(blobs: seq<Blob>) {
    forall blob <- blobs :: Sizable(blob)
  }

  function SentAll(blobs: seq<Blob>): seq<Byte>
    requires AllSizable(blobs)
  {
    if blobs == [] then [] else Sent(blobs[0]) + SentAll(blobs[1..])
  }

  /** `n` read notifications. */
  function Pump(r: Receiver, n: nat): Receiver
    decreases n
  {
    if n == 0 then r else Pump(Step(r, Ready), n - 1)
  }

  /** Reads a size, then the blob that it announces, a page an event. */
  function ReceiveNext(r: Receiver): Receiver {
    if |r.channel| < 4 then r
    else Pump(ReceiveData(r.(channel := r.channel[4..]), AsInt(Value(r.channel))), |r.channel|)
  }

  function ReceiveAll(r: Receiver, n: nat): Receiver
    decreases n
  {
    if n == 0 then r else ReceiveAll(ReceiveNext(r), n - 1)
  }

  lemma {:induction false} PumpDelivers(t: Transfer, r: Receiver, k: nat, n: nat)
    requires k > 0 && Healthy(t, r, k, [])
    requires k + n >= |Pages(t.blob)|
    ensures Healthy(t, Pump(r, n), |Pages(t.blob)|, [])
    decreases n
  {
    hide Step;
    HealthyReads(t, r, k, []);
    if n > 0 {
      if r.notify {
        AllHasArrived(t, r, k);
      }
      hide Healthy;
      assert Bytes(Ready) + [] == [];
      StepKeepsTransfer(t, r, k, Ready, []);
      PumpDelivers(t, Step(r, Ready), Min(k + 1, |Pages(t.blob)|), n - 1);
    }
  }

  lemma ArrayIsWhole(page: Blob, tail: seq<Byte>)
    requires |page| <= PAGE_SIZE
    ensures WholeArray(Array(page) + tail)
  {
    WordValue(|page|, page + tail);
    assert Array(page) + tail == Word(|page|) + (page + tail);
    hide Word, Value;
  }

  /** With nothing to come, the next page is there. */
  lemma AllHasArrived(t: Transfer, r: Receiver, k: nat)
    requires Healthy(t, r, k, []) && r.notify
    ensures WholeArray(r.channel)
  {
    hide WholeArray, Array;
    var pages := Pages(t.blob);
    StreamFrom(pages, k);
    hide Pages, Stream;
    ArrayIsWhole(pages[k], Stream(pages[k + 1..]) + t.rest);
    assert r.channel + [] == r.channel;
    assert r.channel == Array(pages[k]) + (Stream(pages[k + 1..]) + t.rest);
  }

  lemma {:induction false} Idle(r: Receiver, n: nat)
    requires !r.notify
    ensures Pump(r, n) == r
    decreases n
  {
    if n > 0 {
      Idle(r, n - 1);
    }
  }

  /** The size of a blob that was sent is read back. */
  lemma SizeIsRead(r: Receiver, blob: Blob, rest: seq<Byte>)
    requires Sizable(blob) && r.channel == Sent(blob) + rest
    ensures |r.channel| >= 4 && r.channel[4..] == Stream(Pages(blob)) + rest
    ensures AsInt(Value(r.channel)) == |blob| && Value(r.channel) == |blob|
    ensures |r.channel| >= |Pages(blob)|
  {
    hide Word, Value, Pages, Stream;
    assert r.channel == Word(|blob|) + (Stream(Pages(blob)) + rest);
    WordValue(|blob|, Stream(Pages(blob)) + rest);
    PageCount(blob);
    StreamHoldsBlob(blob);
  }

  lemma NextIsDelivered(r: Receiver, blob: Blob, rest: seq<Byte>)
    requires Sizable(blob) && blob != [] && !r.notify && r.channel == Sent(blob) + rest
    ensures var last := ReceiveNext(r);
      && last.channel == rest && !last.notify && last.errors == r.errors
      && last.delivered == r.delivered + [blob]
  {
    SizeIsRead(r, blob, rest);
    hide Sent, Value, Stream, Pages, ReceiveData;
    var begun := r.(channel := r.channel[4..]);
    assert begun.channel + [] == begun.channel;
    ReceiveStarts(blob, begun, [], rest);
    FirstHasArrived(blob, rest);
    var t, n := Transfer(blob, begun, rest), |r.channel|;
    PumpDelivers(t, ReceiveData(begun, |blob|), 1, n);
    var last := Pump(ReceiveData(begun, |blob|), n);
    HealthyOutcome(t, last, |Pages(blob)|, []);
    assert last.channel + [] == last.channel;
  }

  lemma FirstHasArrived(blob: Blob, rest: seq<Byte>)
    requires blob != []
    ensures WholeArray(Stream(Pages(blob)) + rest)
  {
    hide WholeArray, Array;
    var pages := Pages(blob);
    ArrayIsWhole(pages[0], Stream(pages[1..]) + rest);
    assert Stream(pages) + rest == Array(pages[0]) + (Stream(pages[1..]) + rest);
  }

  /** A size that is no int is taken for a negative one: one array is read for it, and nothing is
      delivered or reported. */
  lemma HugeSizeIsIgnored(r: Receiver)
    requires !r.notify && |r.channel| >= 4 && Value(r.channel) >= INT_LIMIT
    ensures var last := ReceiveNext(r);
      last.delivered == r.delivered && last.errors == r.errors && !last.notify
      && last.channel == AfterFraction(r.channel[4..])
  {
    var begun := r.(channel := r.channel[4..]);
    var expected := AsInt(Value(r.channel));
    assert expected < 0;
    hide Value, Fraction, AfterFraction, Pump;
    Idle(ReceiveData(begun, expected), |r.channel|);
  }

  /** A null array is an empty one. */
  lemma NullArrayIsEmpty(rest: seq<Byte>)
    ensures var channel := Word(NULL_LENGTH) + rest; Fraction(channel) == [] && AfterFraction(channel) == rest
  {
    WordValue(NULL_LENGTH, rest);
    hide Word, Value;
  }

  /** An empty blob that is the last one is delivered. */
  lemma LastEmptyIsDelivered(r: Receiver)
    requires !r.notify && r.channel == Sent([])
    ensures var last := ReceiveNext(r);
      last.channel == [] && !last.notify && last.errors == r.errors && last.delivered == r.delivered + [[]]
  {
    assert r.channel == Sent([]) + [];
    SizeIsRead(r, [], []);
    hide Value;
    Idle(ReceiveData(r.(channel := []), 0), |r.channel|);
  }

  /** An empty blob has no page, but a byte array is read for it: the next size is taken for its
      length, so that the next blob is lost if it is empty, and this one if it is not. */
  lemma EmptyBlobEatsNextSize(r: Receiver, next: Blob, rest: seq<Byte>)
    requires !r.notify && Sizable(next) && r.channel == Sent([]) + (Sent(next) + rest)
    ensures var last := ReceiveNext(r);
      && !last.notify && last.errors == r.errors
      && if next == [] then last.delivered == r.delivered + [[]] && last.channel == rest
         else last.delivered == r.delivered
  {
    SizeIsRead(r, [], Sent(next) + rest);
    var begun := r.(channel := Sent(next) + rest);
    assert r.channel[4..] == begun.channel;
    SizeIsRead(begun, next, rest);
    StreamHoldsBlob(next);
    hide Value, Sent, Pump;
    assert ArrayLength(begun.channel) == |next| && WholeArray(begun.channel);
    assert |Fraction(begun.channel)| == |next|;
    assert next == [] ==> Stream(Pages(next)) == [];
    Idle(ReceiveData(begun, 0), |r.channel|);
  }

  /** Each reception delivers its own blob. */
  ghost predicate InStep(r: Receiver, blobs: seq<Blob>) {
    forall i :: 0 <= i <= |blobs| ==> ReceiveAll(r, i).delivered == r.delivered + blobs[..i]
  }

  lemma InStepHead(r: Receiver, blobs: seq<Blob>)
    requires blobs != []
    ensures InStep(r, blobs) <==>
      ReceiveNext(r).delivered == r.delivered + [blobs[0]] && InStep(ReceiveNext(r), blobs[1..])
  {
    hide ReceiveNext;
    var next := ReceiveNext(r);
    assert ReceiveAll(r, 1) == ReceiveAll(next, 0) == next && blobs[..1] == [blobs[0]];
    if next.delivered == r.delivered + [blobs[0]] {
      forall i | 0 <= i < |blobs|
        ensures ReceiveAll(r, i + 1) == ReceiveAll(next, i)
        ensures r.delivered + blobs[..i + 1] == next.delivered + blobs[1..][..i]
      {
        assert blobs[..i + 1] == [blobs[0]] + blobs[1..][..i];
      }
      if InStep(r, blobs) {
        forall i | 0 <= i <= |blobs| - 1 ensures ReceiveAll(next, i).delivered == next.delivered + blobs[1..][..i] {
          assert ReceiveAll(r, i + 1).delivered == r.delivered + blobs[..i + 1];
        }
      }
      if InStep(next, blobs[1..]) {
        forall i | 0 <= i <= |blobs| ensures ReceiveAll(r, i).delivered == r.delivered + blobs[..i] {
          if i > 0 {
            assert ReceiveAll(next, i - 1).delivered == next.delivered + blobs[1..][..i - 1];
            assert r.delivered + blobs[..i - 1 + 1] == next.delivered + blobs[1..][..i - 1];
          }
        }
      }
    }
  }

  predicate NoneEmptyButLast(blobs: seq<Blob>) {
    forall i :: 0 <= i < |blobs| - 1 ==> blobs[i] != []
  }

  lemma FirstArrives(r: Receiver, blobs: seq<Blob>)
    requires !r.notify && AllSizable(blobs) && NoneEmptyButLast(blobs) && r.channel == SentAll(blobs) && blobs != []
    ensures AllSizable(blobs[1..]) && NoneEmptyButLast(blobs[1..])
    ensures var next := ReceiveNext(r);
      && !next.notify && next.channel == SentAll(blobs[1..]) && next.errors == r.errors
      && next.delivered == r.delivered + [blobs[0]]
  {
    hide Sent, ReceiveNext;
    assert blobs[0] in blobs;
    if blobs[0] != [] {
      NextIsDelivered(r, blobs[0], SentAll(blobs[1..]));
    } else {
      assert blobs[1..] == [] && r.channel == Sent([]);
      LastEmptyIsDelivered(r);
    }
  }

  lemma {:induction false} StaysInStep(r: Receiver, blobs: seq<Blob>)
    requires !r.notify && AllSizable(blobs) && NoneEmptyButLast(blobs) && r.channel == SentAll(blobs)
    ensures InStep(r, blobs)
    decreases |blobs|
  {
    if blobs == [] {
      assert r.delivered + blobs == r.delivered;
    } else {
      hide ReceiveNext, InStep, NoneEmptyButLast, AllSizable, SentAll;
      FirstArrives(r, blobs);
      StaysInStep(ReceiveNext(r), blobs[1..]);
      InStepHead(r, blobs);
    }
  }

  lemma {:induction false} NothingIsLeft(r: Receiver, blobs: seq<Blob>)
    requires !r.notify && AllSizable(blobs) && NoneEmptyButLast(blobs) && r.channel == SentAll(blobs)
    ensures ReceiveAll(r, |blobs|).channel == [] && ReceiveAll(r, |blobs|).errors == r.errors
    decreases |blobs|
  {
    if blobs != [] {
      FirstArrives(r, blobs);
      assert ReceiveAll(r, |blobs|) == ReceiveAll(ReceiveNext(r), |blobs[1..]|);
      hide ReceiveNext, NoneEmptyButLast, AllSizable, SentAll, ReceiveAll;
      NothingIsLeft(ReceiveNext(r), blobs[1..]);
    }
  }

  /** When only the last may be empty, the same blobs are received, in order, and nothing is
      left. */
  lemma {:induction false} EveryBlobArrives(r: Receiver, blobs: seq<Blob>)
    requires !r.notify && AllSizable(blobs) && NoneEmptyButLast(blobs) && r.channel == SentAll(blobs)
    ensures InStep(r, blobs)
    ensures var last := ReceiveAll(r, |blobs|);
      last.channel == [] && last.delivered == r.delivered + blobs && last.errors == r.errors
  {
    StaysInStep(r, blobs);
    NothingIsLeft(r, blobs);
    assert blobs[..|blobs|] == blobs;
    hide ReceiveAll;
  }

  /** Fewer blobs in the channel than awaited. */
  lemma {:induction false} TooFewFallsBehind(r: Receiver, sent: seq<Blob>, awaited: seq<Blob>)
    requires !r.notify && AllSizable(sent) && r.channel == SentAll(sent) && |sent| < |awaited|
    ensures !InStep(r, awaited)
    decreases |sent|
  {
    hide InStep;
    InStepHead(r, awaited);
    var next := ReceiveNext(r);
    if sent == [] {
      assert next == r;
    } else {
      hide Sent, ReceiveNext;
      assert sent[0] in sent;
      if sent[0] != [] {
        NextIsDelivered(r, sent[0], SentAll(sent[1..]));
        TooFewFallsBehind(next, sent[1..], awaited[1..]);
      } else if |sent| == 1 {
        assert SentAll(sent[1..]) == [] && r.channel == Sent([]);
        LastEmptyIsDelivered(r);
        TooFewFallsBehind(next, [], awaited[1..]);
      } else {
        SecondSent(sent);
        EmptyBlobEatsNextSize(r, sent[1], SentAll(sent[2..]));
        if sent[1] == [] {
          TooFewFallsBehind(next, sent[2..], awaited[1..]);
        }
      }
    }
  }

  lemma SecondSent(blobs: seq<Blob>)
    requires |blobs| > 1 && AllSizable(blobs)
    ensures AllSizable(blobs[2..]) && Sizable(blobs[0]) && Sizable(blobs[1])
    ensures SentAll(blobs) == Sent(blobs[0]) + (Sent(blobs[1]) + SentAll(blobs[2..]))
  {
    hide Sent;
    assert blobs[0] in blobs && blobs[1] in blobs;
    assert blobs[1..][1..] == blobs[2..];
  }

  lemma {:induction false} EmptyFallsBehind(r: Receiver, blobs: seq<Blob>)
    requires !r.notify && AllSizable(blobs) && !NoneEmptyButLast(blobs) && r.channel == SentAll(blobs)
    ensures !InStep(r, blobs)
    decreases |blobs|
  {
    hide InStep, Sent, ReceiveNext;
    InStepHead(r, blobs);
    assert blobs[0] in blobs;
    var next := ReceiveNext(r);
    if blobs[0] != [] {
      NextIsDelivered(r, blobs[0], SentAll(blobs[1..]));
      EmptyFallsBehind(next, blobs[1..]);
    } else {
      SecondSent(blobs);
      EmptyBlobEatsNextSize(r, blobs[1], SentAll(blobs[2..]));
      if blobs[1] == [] {
        TooFewFallsBehind(next, blobs[2..], blobs[1..]);
      }
    }
  }

  /** Blobs sent over one channel are each delivered by their own reception exactly when none but
      the last is empty. */
  lemma BlobsArriveExactly(r: Receiver, blobs: seq<Blob>)
    requires !r.notify && AllSizable(blobs) && r.channel == SentAll(blobs)
    ensures InStep(r, blobs) <==> NoneEmptyButLast(blobs)
  {
    if NoneEmptyButLast(blobs) {
      EveryBlobArrives(r, blobs);
    } else {
      EmptyFallsBehind(r, blobs);
    }
  }
}
