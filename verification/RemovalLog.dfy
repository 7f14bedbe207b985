/**
  The removal log of db/removed.go: an append-and-trim stream, and pollers of /removed that
  resume from the cursor the last answer gave them, reading in three separate commands.
 */
module RemovalLog {
  import opened Basics

  // ---------- Stream IDs ----------

  datatype ID = ID(ms: nat, number: nat)

  const ZERO := ID(0, 0)

  predicate Less(a: ID, b: ID) {
    a.ms < b.ms || (a.ms == b.ms && a.number < b.number)
  }

  const UINT64 := 0x1_0000_0000_0000_0000

  predicate IsDigit(c: char) {
    '0' <= c <= '9'
  }

  function Value(s: string): nat
    requires forall c :: c in s ==> IsDigit(c)
  {
    if s == [] then 0 else
    assert IsDigit(s[|s| - 1]) && forall c :: c in s[..|s| - 1] ==> c in s;
    Value(s[..|s| - 1]) * 10 + (s[|s| - 1] as int - '0' as int)
  }

  /** strconv.ParseUint(s, 10, 64). */
  function ParseUint(s: string): Option<nat> {
    if s != [] && (forall c :: c in s ==> IsDigit(c)) && Value(s) < UINT64 then Some(Value(s)) else None
  }

  /** Where the first '-' is, or the length. */
  function Dash(s: string): (i: nat)
    ensures i <= |s| && (forall j :: 0 <= j < i ==> s[j] != '-') && (i < |s| ==> s[i] == '-')
  {
    if s == [] || s[0] == '-' then 0 else 1 + Dash(s[1..])
  }

  /** parseStreamID: "<ms>-<seq>" or "<ms>". */
  function ParseStreamID(s: string): Option<ID> {
    var d := Dash(s);
    var ms := ParseUint(s[..d]);
    if ms.None? then None
    else if d == |s| then Some(ID(ms.value, 0))
    else
      var number := ParseUint(s[d + 1..]);
      if number.None? then None else Some(ID(ms.value, number.value))
  }

  function Digits(n: nat): (s: string)
    ensures s != [] && forall c :: c in s ==> IsDigit(c)
  {
    var last := ['0' + (n % 10) as char];
    if n < 10 then last else Digits(n / 10) + last
  }

  /** A stream ID as redis prints it. */
  function Print(id: ID): string {
    Digits(id.ms) + "-" + Digits(id.number)
  }

  lemma {:induction false} DigitsRoundTrip(n: nat)
    ensures Value(Digits(n)) == n
  {
    var s := Digits(n);
    if n >= 10 {
      DigitsRoundTrip(n / 10);
      assert s[..|s| - 1] == Digits(n / 10);
    } else {
      assert s[..0] == [];
    }
  }

  /** A cursor /removed hands out parses back to the entry it names; a bare "<ms>" is that millisecond's start. */
  lemma CursorRoundTrip(id: ID)
    requires id.ms < UINT64 && id.number < UINT64
    ensures ParseStreamID(Print(id)) == Some(id)
    ensures ParseStreamID(Digits(id.ms)) == Some(ID(id.ms, 0))
  {
    var ms, number, s := Digits(id.ms), Digits(id.number), Print(id);
    DigitsRoundTrip(id.ms);
    DigitsRoundTrip(id.number);
    assert forall j :: 0 <= j < |ms| ==> IsDigit(ms[j]) && s[j] == ms[j];
    assert s[..|ms|] == ms && s[|ms|] == '-' && s[|ms| + 1..] == number;
    assert Dash(s) == |ms| && Dash(ms) == |ms|;
    assert ms[..|ms|] == ms;
  }

  /** s is the decimal numeral of a 64-bit number. */
  predicate Numeral(s: string, v: nat) {
    s != [] && (forall c :: c in s ==> IsDigit(c)) && Value(s) == v && v < UINT64
  }

  /** Exactly the numerals, and the pairs of numerals joined by a dash, are cursors. */
  lemma ParseMeaning(s: string, id: ID)
    ensures ParseStreamID(s) == Some(id) <==>
              || (Numeral(s, id.ms) && id.number == 0)
              || (exists d :: 0 <= d < |s| && s[d] == '-' && Numeral(s[..d], id.ms) && Numeral(s[d + 1..], id.number))
  {
    assert s[..|s|] == s;
    if Numeral(s, id.ms) {
      DashComesAfter(s, |s|);
    }
    if e :| 0 <= e < |s| && s[e] == '-' && Numeral(s[..e], id.ms) && Numeral(s[e + 1..], id.number) {
      DashComesAfter(s, e);
    }
  }

  lemma DashComesAfter(s: string, e: nat)
    requires e <= |s| && (e < |s| ==> s[e] == '-') && forall c :: c in s[..e] ==> IsDigit(c)
    ensures Dash(s) == e
  {
    forall j | 0 <= j < e ensures s[j] != '-' {
      assert s[..e][j] in s[..e];
    }
  }

  // ---------- The log ----------

  datatype Entry = Entry(id: ID, removal: string)

  /** The stream, and the ID of the newest entry ever trimmed from it. */
  datatype Log = Log(stream: seq<Entry>, trimmed: Option<ID>)

  /** recordRemovedScript: append, then trim to the limit and remember how far. */
  function RecordRemoved(log: Log, entry: Entry, limit: nat): Log {
    var stream := log.stream + [entry];
    if |stream| > limit then
      var excess := |stream| - limit;
      Log(stream[excess..], Some(stream[excess - 1].id))
    else Log(stream, log.trimmed)
  }

  class RemovedStream {
    var stream: seq<Entry>
    var trimmed: Option<ID>

    function View(): Log
      reads this
    {
      Log(stream, trimmed)
    }

    constructor ()
      ensures View() == Log([], None)
    {
      stream, trimmed := [], None;
    }

    /** The script, command by command. */
    method RecordRemovedScript(entry: Entry, limit: nat)
      modifies this
      ensures View() == RecordRemoved(old(View()), entry, limit)
    {
      stream := stream + [entry];
      var excess := |stream| - limit;
      if excess > 0 {
        var oldest := stream[..excess];
        trimmed := Some(oldest[|oldest| - 1].id);
        stream := stream[excess..];
      }
    }
  }

  /** How many of the entries, in order, are not after the cursor. */
  function Rank(h: seq<Entry>, cursor: ID): (r: nat)
    ensures r <= |h|
  {
    if h == [] then 0
    else if Less(cursor, h[|h| - 1].id) then Rank(h[..|h| - 1], cursor)
    else |h|
  }

  /** XREAD: up to count entries after the cursor. */
  function ReadAfter(stream: seq<Entry>, cursor: ID, count: nat): seq<Entry> {
    var rest := stream[Rank(stream, cursor)..];
    if |rest| <= count then rest else rest[..count]
  }

  function Newest(log: Log): ID {
    if log.stream == [] then ZERO else log.stream[|log.stream| - 1].id
  }

  predicate Truncated(log: Log, cursor: ID) {
    log.trimmed.Some? && Less(cursor, log.trimmed.value)
  }

  // ---------- Runs ----------

  /**
    A poller of one service. good: no poll so far has failed or reported truncation. pages: the
    pages of those polls, end to end. dropped: how much had been trimmed when the page was read.
   */
  datatype Stage = Between | Checked | Fetched(page: seq<Entry>, dropped: nat)
  datatype Poller = Poller(start: ID, cursor: ID, pages: seq<Entry>, good: bool, stage: Stage)

  /** history: every removal recorded, oldest first, trimmed or not. */
  datatype World = World(log: Log, history: seq<Entry>, pollers: map<nat, Poller>)

  datatype Step =
    | Recorded(entry: Entry)
    | Join(poller: nat, since: ID)
    | CheckNewest(poller: nat)            // XREVRANGE: a cursor past the newest entry is an error
    | Fetch(poller: nat, count: nat)      // XREAD
    | CheckTrimmed(poller: nat)           // GET of the trim marker; the poll is answered
    | Fail(poller: nat)                   // a read failed

  function Dropped(w: World): int {
    |w.history| - |w.log.stream|
  }

  /** XADD '*' takes an ID after every earlier one. */
  predicate Fresh(w: World, id: ID) {
    Less(ZERO, id) && forall i :: 0 <= i < |w.history| ==> Less(w.history[i].id, id)
  }

  function Answer(p: Poller, log: Log): Poller
    requires p.stage.Fetched?
  {
    var page := p.stage.page;
    Poller(p.start, if page == [] then p.cursor else page[|page| - 1].id, p.pages + page,
           p.good && !Truncated(log, p.cursor), Between)
  }

  function Apply(w: World, step: Step, limit: nat): World {
    match step
    case Recorded(entry) =>
      if !Fresh(w, entry.id) then w
      else w.(log := RecordRemoved(w.log, entry, limit), history := w.history + [entry])
    case Join(id, since) =>
      if id in w.pollers then w else w.(pollers := w.pollers[id := Poller(since, since, [], true, Between)])
    case CheckNewest(id) =>
      if id !in w.pollers || !w.pollers[id].stage.Between? then w else
      var p := w.pollers[id];
      w.(pollers := w.pollers[id := if Less(Newest(w.log), p.cursor) then p.(good := false) else p.(stage := Checked)])
    case Fetch(id, count) =>
      if id !in w.pollers || !w.pollers[id].stage.Checked? || Dropped(w) < 0 then w else
      var p := w.pollers[id];
      w.(pollers := w.pollers[id := p.(stage := Fetched(ReadAfter(w.log.stream, p.cursor, count), Dropped(w)))])
    case CheckTrimmed(id) =>
      if id !in w.pollers || !w.pollers[id].stage.Fetched? then w else
      w.(pollers := w.pollers[id := Answer(w.pollers[id], w.log)])
    case Fail(id) =>
      if id !in w.pollers then w else
      w.(pollers := w.pollers[id := w.pollers[id].(good := false, stage := Between)])
  }

  function Reached(limit: nat, steps: seq<Step>): World {
    if steps == [] then World(Log([], None), [], map[])
    else Apply(Reached(limit, steps[..|steps| - 1]), steps[|steps| - 1], limit)
  }

  // ---------- The invariant ----------

  ghost predicate Sorted(h: seq<Entry>) {
    && (forall i :: 0 <= i < |h| ==> Less(ZERO, h[i].id))
    && forall i, j :: 0 <= i < j < |h| ==> Less(h[i].id, h[j].id)
  }

  ghost predicate LogInv(log: Log, h: seq<Entry>) {
    && Sorted(h)
    && |log.stream| <= |h|
    && log.stream == h[|h| - |log.stream|..]
    && log.trimmed == if |log.stream| == |h| then None else Some(h[|h| - |log.stream| - 1].id)
  }

  /** Where a page read at a cursor begins, when so many entries had been trimmed. */
  function From(h: seq<Entry>, cursor: ID, dropped: nat): nat {
    if dropped <= Rank(h, cursor) then Rank(h, cursor) else dropped
  }

  ghost predicate PageInv(page: seq<Entry>, h: seq<Entry>, from: nat) {
    from + |page| <= |h| && page == h[from..from + |page|]
  }

  ghost predicate PollerInv(p: Poller, h: seq<Entry>, dropped: int) {
    && Rank(h, p.start) <= Rank(h, p.cursor)
    && (p.cursor == p.start || (Less(p.start, p.cursor) && h != [] && !Less(h[|h| - 1].id, p.cursor)))
    && (p.good ==> p.pages == h[Rank(h, p.start)..Rank(h, p.cursor)])
    && (p.stage.Fetched? ==>
          p.stage.dropped <= dropped && PageInv(p.stage.page, h, From(h, p.cursor, p.stage.dropped)))
  }

  ghost predicate Inv(w: World) {
    LogInv(w.log, w.history) && forall id :: id in w.pollers ==> PollerInv(w.pollers[id], w.history, Dropped(w))
  }

  // ---------- Ranks ----------

  lemma {:induction false} RankMeaning(h: seq<Entry>, c: ID)
    requires Sorted(h)
    ensures forall i :: 0 <= i < Rank(h, c) ==> !Less(c, h[i].id)
    ensures forall i :: Rank(h, c) <= i < |h| ==> Less(c, h[i].id)
  {
    if h != [] {
      RankMeaning(h[..|h| - 1], c);
    }
  }

  /** A rank is where the entries after the cursor begin. */
  lemma RankIs(h: seq<Entry>, c: ID, r: nat)
    requires Sorted(h) && r <= |h|
    requires r > 0 ==> !Less(c, h[r - 1].id)
    requires r < |h| ==> Less(c, h[r].id)
    ensures Rank(h, c) == r
  {
    RankMeaning(h, c);
  }

  lemma RankOfAppend(h: seq<Entry>, e: Entry, c: ID)
    ensures Rank(h + [e], c) == if Less(c, e.id) then Rank(h, c) else |h| + 1
  {
    assert (h + [e])[..|h|] == h;
  }

  lemma SuffixSorted(h: seq<Entry>, d: nat)
    requires Sorted(h) && d <= |h|
    ensures Sorted(h[d..])
  {
  }

  lemma RankOfSuffix(h: seq<Entry>, d: nat, c: ID)
    requires Sorted(h) && d <= |h|
    ensures Rank(h[d..], c) == if d <= Rank(h, c) then Rank(h, c) - d else 0
  {
    RankMeaning(h, c);
    SuffixSorted(h, d);
    RankIs(h[d..], c, if d <= Rank(h, c) then Rank(h, c) - d else 0);
  }

  // ---------- Steps ----------

  lemma RecordKeepsLog(log: Log, h: seq<Entry>, e: Entry, limit: nat)
    requires LogInv(log, h) && Sorted(h + [e])
    ensures LogInv(RecordRemoved(log, e, limit), h + [e])
    ensures |h| - |log.stream| <= |h + [e]| - |RecordRemoved(log, e, limit).stream|
  {
    var d := |h| - |log.stream|;
    assert log.stream + [e] == (h + [e])[d..];
    if |log.stream| + 1 > limit {
      SuffixOfSuffix(h + [e], d, |log.stream| + 1 - limit);
    }
  }

  lemma SuffixOfSuffix(h: seq<Entry>, d: nat, more: nat)
    requires 0 < more && d + more <= |h|
    ensures h[d..][more..] == h[d + more..] && h[d..][more - 1] == h[d + more - 1]
  {
  }

  lemma RecordKeepsPage(page: seq<Entry>, cursor: ID, dropped: nat, h: seq<Entry>, e: Entry)
    requires Sorted(h) && Sorted(h + [e]) && PageInv(page, h, From(h, cursor, dropped)) && dropped <= |h|
    ensures PageInv(page, h + [e], From(h + [e], cursor, dropped))
  {
    var h', from := h + [e], From(h, cursor, dropped);
    RankOfAppend(h, e, cursor);
    if page != [] {
      RankMeaning(h, cursor);
      assert Less(cursor, h[from].id) && Less(h'[from].id, h'[|h|].id);
      assert Less(cursor, e.id);
      assert h'[from..from + |page|] == h[from..from + |page|];
    }
  }

  lemma RecordKeepsPoller(p: Poller, h: seq<Entry>, e: Entry, dropped: int, dropped': int)
    requires Sorted(h) && Sorted(h + [e]) && PollerInv(p, h, dropped) && dropped <= |h| && dropped <= dropped'
    ensures PollerInv(p, h + [e], dropped')
  {
    var h' := h + [e];
    RankOfAppend(h, e, p.start);
    RankOfAppend(h, e, p.cursor);
    if p.cursor != p.start {
      assert Less(h'[|h| - 1].id, h'[|h|].id);
      assert Less(p.cursor, e.id) && Less(p.start, e.id);
      assert h'[Rank(h, p.start)..Rank(h, p.cursor)] == h[Rank(h, p.start)..Rank(h, p.cursor)];
    }
    if p.stage.Fetched? {
      RecordKeepsPage(p.stage.page, p.cursor, p.stage.dropped, h, e);
    }
  }

  lemma FetchReadsFrom(log: Log, h: seq<Entry>, cursor: ID, count: nat)
    requires LogInv(log, h)
    ensures PageInv(ReadAfter(log.stream, cursor, count), h, From(h, cursor, |h| - |log.stream|))
  {
    var d, r := |h| - |log.stream|, Rank(log.stream, cursor);
    var page := ReadAfter(log.stream, cursor, count);
    assert d + r == From(h, cursor, d) by {
      RankOfSuffix(h, d, cursor);
    }
    assert PageInv(page, h, d + r) by {
      PageOfSuffix(log.stream, h, d, r, count);
    }
  }

  /** A page off the end of a suffix of h is a stretch of h. */
  lemma PageOfSuffix(stream: seq<Entry>, h: seq<Entry>, d: nat, r: nat, count: nat)
    requires d + r <= |h| && stream == h[d..]
    ensures var rest := stream[r..]; PageInv(if |rest| <= count then rest else rest[..count], h, d + r)
  {
    assert stream[r..] == h[d + r..];
  }

  /** The last entry of a page is after its cursor, and is the new rank. */
  lemma PageEnds(h: seq<Entry>, cursor: ID, from: nat, page: seq<Entry>)
    requires Sorted(h) && page != [] && Rank(h, cursor) <= from && PageInv(page, h, from)
    ensures EndsAt(h, cursor, page[|page| - 1].id, from + |page|)
  {
    LastOfPage(page, h, from);
    EntryEnds(h, cursor, from + |page| - 1);
  }

  /** A cursor moved on to an entry of the history. */
  ghost predicate EndsAt(h: seq<Entry>, cursor: ID, last: ID, rank: nat) {
    Less(cursor, last) && h != [] && !Less(h[|h| - 1].id, last) && Rank(h, last) == rank
  }

  lemma EntryEnds(h: seq<Entry>, cursor: ID, i: nat)
    requires Sorted(h) && Rank(h, cursor) <= i < |h|
    ensures EndsAt(h, cursor, h[i].id, i + 1)
  {
    RankOfEntry(h, i);
    EntryAfter(h, cursor, i);
  }

  lemma LastOfPage(page: seq<Entry>, h: seq<Entry>, from: nat)
    requires page != [] && PageInv(page, h, from)
    ensures page[|page| - 1] == h[from + |page| - 1]
  {
  }

  /** An entry's own ID has it and everything before it at or below. */
  lemma RankOfEntry(h: seq<Entry>, i: nat)
    requires Sorted(h) && i < |h|
    ensures Rank(h, h[i].id) == i + 1 && !Less(h[|h| - 1].id, h[i].id)
  {
    RankIs(h, h[i].id, i + 1);
  }

  lemma EntryAfter(h: seq<Entry>, cursor: ID, i: nat)
    requires Sorted(h) && Rank(h, cursor) <= i < |h|
    ensures Less(cursor, h[i].id)
  {
    RankMeaning(h, cursor);
  }

  lemma AnswerKeepsPoller(p: Poller, log: Log, h: seq<Entry>)
    requires LogInv(log, h) && PollerInv(p, h, |h| - |log.stream|) && p.stage.Fetched?
    ensures PollerInv(Answer(p, log), h, |h| - |log.stream|)
  {
    var page, p' := p.stage.page, Answer(p, log);
    if page != [] {
      PageEnds(h, p.cursor, From(h, p.cursor, p.stage.dropped), page);
    }
    if p'.good {
      NotTruncatedMeansWhole(log, h, p.cursor);
      GoodPageExtends(h, p, Rank(h, p.start), Rank(h, p.cursor));
    }
  }

  lemma GoodPageExtends(h: seq<Entry>, p: Poller, s: nat, r: nat)
    requires s <= r <= |h| && p.stage.Fetched? && PageInv(p.stage.page, h, r) && p.pages == h[s..r]
    ensures p.pages + p.stage.page == h[s..r + |p.stage.page|]
  {
  }

  /** No truncation reported at a cursor: everything trimmed so far is at or before it. */
  lemma NotTruncatedMeansWhole(log: Log, h: seq<Entry>, cursor: ID)
    requires LogInv(log, h)
    ensures !Truncated(log, cursor) <==> |h| - |log.stream| <= Rank(h, cursor)
  {
    RankMeaning(h, cursor);
  }

  lemma RecordKeepsInv(w: World, e: Entry, limit: nat)
    requires Inv(w) && Fresh(w, e.id)
    ensures Inv(Apply(w, Recorded(e), limit))
  {
    var w' := Apply(w, Recorded(e), limit);
    RecordKeepsLog(w.log, w.history, e, limit);
    forall id | id in w.pollers ensures PollerInv(w.pollers[id], w'.history, Dropped(w')) {
      RecordKeepsPoller(w.pollers[id], w.history, e, Dropped(w), Dropped(w'));
    }
  }

  lemma UpdateKeepsInv(w: World, id: nat, p: Poller)
    requires Inv(w) && PollerInv(p, w.history, Dropped(w))
    ensures Inv(w.(pollers := w.pollers[id := p]))
  {
  }

  lemma CheckNewestKeepsInv(w: World, id: nat, limit: nat)
    requires Inv(w)
    ensures Inv(Apply(w, CheckNewest(id), limit))
  {
    if id in w.pollers && w.pollers[id].stage.Between? {
      UpdateKeepsInv(w, id, w.pollers[id].(good := false));
      UpdateKeepsInv(w, id, w.pollers[id].(stage := Checked));
    }
  }

  lemma FetchKeepsInv(w: World, id: nat, count: nat, limit: nat)
    requires Inv(w)
    ensures Inv(Apply(w, Fetch(id, count), limit))
  {
    if id in w.pollers {
      var p := w.pollers[id];
      FetchReadsFrom(w.log, w.history, p.cursor, count);
      UpdateKeepsInv(w, id, p.(stage := Fetched(ReadAfter(w.log.stream, p.cursor, count), Dropped(w))));
    }
  }

  lemma InvPreserved(w: World, step: Step, limit: nat)
    requires Inv(w)
    ensures Inv(Apply(w, step, limit))
  {
    match step
    case Recorded(e) => if Fresh(w, e.id) { RecordKeepsInv(w, e, limit); }
    case Join(id, since) =>
      assert w.history[Rank(w.history, since)..Rank(w.history, since)] == [];
      UpdateKeepsInv(w, id, Poller(since, since, [], true, Between));
    case CheckNewest(id) => CheckNewestKeepsInv(w, id, limit);
    case Fetch(id, count) => FetchKeepsInv(w, id, count, limit);
    case CheckTrimmed(id) =>
      if id in w.pollers && w.pollers[id].stage.Fetched? {
        AnswerKeepsPoller(w.pollers[id], w.log, w.history);
        UpdateKeepsInv(w, id, Answer(w.pollers[id], w.log));
      }
    case Fail(id) => if id in w.pollers { UpdateKeepsInv(w, id, w.pollers[id].(good := false, stage := Between)); }
  }

  lemma {:induction false} RunKeepsInv(limit: nat, steps: seq<Step>)
    ensures Inv(Reached(limit, steps))
  {
    if steps != [] {
      RunKeepsInv(limit, steps[..|steps| - 1]);
      InvPreserved(Reached(limit, steps[..|steps| - 1]), steps[|steps| - 1], limit);
    }
  }

  // ---------- The theorems ----------

  /** The recorded removals after one cursor and not after another, in order. */
  function HistoryBetween(h: seq<Entry>, after: ID, upTo: ID): seq<Entry> {
    if h == [] then [] else
    var rest, e := HistoryBetween(h[..|h| - 1], after, upTo), h[|h| - 1];
    if Less(after, e.id) && !Less(upTo, e.id) then rest + [e] else rest
  }

  /** A cursor at or after the last entry is at or after every earlier one. */
  lemma RankBeforeLast(init: seq<Entry>, e: Entry, c: ID)
    requires Sorted(init + [e]) && !Less(c, e.id)
    ensures Rank(init, c) == |init|
  {
    if init != [] {
      assert Less((init + [e])[|init| - 1].id, (init + [e])[|init|].id);
    }
  }

  lemma {:induction false} BetweenIsSlice(h: seq<Entry>, after: ID, upTo: ID)
    requires Sorted(h) && Rank(h, after) <= Rank(h, upTo)
    ensures HistoryBetween(h, after, upTo) == h[Rank(h, after)..Rank(h, upTo)]
  {
    if h != [] {
      var init, e := h[..|h| - 1], h[|h| - 1];
      assert h == init + [e];
      RankOfAppend(init, e, after);
      RankOfAppend(init, e, upTo);
      if !Less(upTo, e.id) {
        RankBeforeLast(init, e, upTo);
      }
      if !Less(after, e.id) {
        RankBeforeLast(init, e, after);
      }
      BetweenIsSlice(init, after, upTo);
      BetweenGrows(init, e, Rank(init, after), Rank(init, upTo));
    }
  }

  lemma BetweenGrows(init: seq<Entry>, e: Entry, r: nat, u: nat)
    requires r <= u <= |init|
    ensures (init + [e])[r..u] == init[r..u]
    ensures (init + [e])[r..|init| + 1] == init[r..] + [e]
  {
  }

  /**
    In every interleaving of removals, trims and polls: while none of a poller's polls has failed
    or reported truncation, its pages end to end are exactly the recorded history from where it
    joined to its cursor, in order, with no gap and no repeat.
   */
  lemma PagesAreTheHistory(limit: nat, steps: seq<Step>, poller: nat)
    requires poller in Reached(limit, steps).pollers
    ensures var w := Reached(limit, steps);
            var p := w.pollers[poller];
            p.good ==> p.pages == HistoryBetween(w.history, p.start, p.cursor)
  {
    RunKeepsInv(limit, steps);
    var w := Reached(limit, steps);
    BetweenIsSlice(w.history, w.pollers[poller].start, w.pollers[poller].cursor);
  }

  /** With no interleaving, truncation is reported exactly when some removal after the cursor has been trimmed. */
  lemma {:induction false} TruncationIsExact(limit: nat, steps: seq<Step>, cursor: ID)
    ensures var w := Reached(limit, steps);
            Truncated(w.log, cursor) <==> exists i :: 0 <= i < Dropped(w) && Less(cursor, w.history[i].id)
    ensures var w := Reached(limit, steps);
            |w.log.stream| <= |w.history| && w.log.stream == w.history[Dropped(w)..]
  {
    LogHolds(limit, steps);
    TrimmedAfter(Reached(limit, steps).log, Reached(limit, steps).history, cursor);
  }

  lemma LogHolds(limit: nat, steps: seq<Step>)
    ensures LogInv(Reached(limit, steps).log, Reached(limit, steps).history)
  {
    RunKeepsInv(limit, steps);
  }

  /** The newest trimmed entry is after the cursor exactly when some trimmed entry is. */
  lemma TrimmedAfter(log: Log, h: seq<Entry>, cursor: ID)
    requires LogInv(log, h)
    ensures Truncated(log, cursor) <==> exists i :: 0 <= i < |h| - |log.stream| && Less(cursor, h[i].id)
  {
    var d := |h| - |log.stream|;
    if Truncated(log, cursor) {
      assert Less(cursor, h[d - 1].id);
    }
    if i :| 0 <= i < d && Less(cursor, h[i].id) {
      assert i == d - 1 || Less(h[i].id, h[d - 1].id);
    }
  }

  /** A cursor /removed gave out is never rejected as being past the newest removal, as long as the log keeps anything. */
  lemma GivenCursorIsAccepted(limit: nat, steps: seq<Step>, poller: nat)
    requires limit > 0 && poller in Reached(limit, steps).pollers
    ensures var w := Reached(limit, steps);
            var p := w.pollers[poller];
            p.cursor != p.start || p.start == ZERO ==> !Less(Newest(w.log), p.cursor)
  {
    RunKeepsInv(limit, steps);
    LogKeepsTheNewest(limit, steps);
  }

  lemma {:induction false} LogKeepsTheNewest(limit: nat, steps: seq<Step>)
    requires limit > 0
    ensures var w := Reached(limit, steps); w.history != [] ==> w.log.stream != []
  {
    if steps != [] {
      LogKeepsTheNewest(limit, steps[..|steps| - 1]);
    }
  }

  // ---------- One poll ----------

  /** The entries after a cursor, in order. */
  function After(entries: seq<Entry>, cursor: ID): seq<Entry> {
    if entries == [] then [] else
    var rest, e := After(entries[..|entries| - 1], cursor), entries[|entries| - 1];
    if Less(cursor, e.id) then rest + [e] else rest
  }

  function AtMost(entries: seq<Entry>, count: nat): seq<Entry> {
    if |entries| <= count then entries else entries[..count]
  }

  lemma {:induction false} AfterIsTheRest(h: seq<Entry>, cursor: ID)
    requires Sorted(h)
    ensures After(h, cursor) == h[Rank(h, cursor)..]
  {
    if h != [] {
      var init, e := h[..|h| - 1], h[|h| - 1];
      assert h == init + [e];
      AfterIsTheRest(init, cursor);
      RankOfAppend(init, e, cursor);
      if !Less(cursor, e.id) {
        RankBeforeLast(init, e, cursor);
        assert After(init, cursor) == [];
      }
    }
  }

  /** The three commands of a poll with nothing in between. */
  function Poll(w: World, poller: nat, count: nat, limit: nat): World {
    Apply(Apply(Apply(w, CheckNewest(poller), limit), Fetch(poller, count), limit), CheckTrimmed(poller), limit)
  }

  lemma PollSteps(w: World, poller: nat, count: nat, limit: nat)
    requires poller in w.pollers && w.pollers[poller].stage.Between? && Dropped(w) >= 0
    ensures var p := w.pollers[poller];
            var page := ReadAfter(w.log.stream, p.cursor, count);
            Poll(w, poller, count, limit) ==
            if Less(Newest(w.log), p.cursor) then w.(pollers := w.pollers[poller := p.(good := false)])
            else w.(pollers := w.pollers[poller := Answer(p.(stage := Fetched(page, Dropped(w))), w.log)])
  {
    var p := w.pollers[poller];
    if !Less(Newest(w.log), p.cursor) {
      var w1 := Apply(w, CheckNewest(poller), limit);
      assert w1 == w.(pollers := w.pollers[poller := p.(stage := Checked)]);
      var w2 := Apply(w1, Fetch(poller, count), limit);
      assert w2 == w.(pollers := w.pollers[poller := p.(stage := Fetched(ReadAfter(w.log.stream, p.cursor, count), Dropped(w)))]);
    }
  }

  /** A poll from p to p' is an error past the newest removal; otherwise it tells the entries, moves on to the last, and notices a gap. */
  ghost predicate Tells(w: World, p: Poller, p': Poller, told: seq<Entry>)
    requires Dropped(w) >= 0
  {
    if Less(Newest(w.log), p.cursor) then p' == p.(good := false)
    else && p'.pages == p.pages + told && p'.stage == Between && p'.start == p.start
         && p'.cursor == (if told == [] then p.cursor else told[|told| - 1].id)
         && (p'.good <==> p.good && !exists i :: 0 <= i < Dropped(w) && Less(p.cursor, w.history[i].id))
         && (told != [] ==> Less(p.cursor, p'.cursor))
  }

  /**
    In every run, a poll that nothing interrupts: a cursor past the newest removal is an error and
    tells nothing; any other is told exactly the removals after it that are still kept, the oldest
    first and at most as many as it asks for, and moves on to the last of them, strictly onward if
    there is one.
   */
  lemma PollTells(limit: nat, steps: seq<Step>, poller: nat, count: nat)
    requires poller in Reached(limit, steps).pollers && Reached(limit, steps).pollers[poller].stage.Between?
    ensures var w := Reached(limit, steps);
            && Dropped(w) >= 0 && poller in Poll(w, poller, count, limit).pollers
            && var p, p' := w.pollers[poller], Poll(w, poller, count, limit).pollers[poller];
               Tells(w, p, p', AtMost(After(w.history[Dropped(w)..], p.cursor), count))
  {
    LogHolds(limit, steps);
    TellsIn(Reached(limit, steps), poller, count, limit);
  }

  lemma TellsIn(w: World, poller: nat, count: nat, limit: nat)
    requires LogInv(w.log, w.history) && poller in w.pollers && w.pollers[poller].stage.Between?
    ensures poller in Poll(w, poller, count, limit).pollers
    ensures var p, p' := w.pollers[poller], Poll(w, poller, count, limit).pollers[poller];
            Tells(w, p, p', AtMost(After(w.history[Dropped(w)..], p.cursor), count))
  {
    TrimmedAfter(w.log, w.history, w.pollers[poller].cursor);
    ReadIsAfter(w.log, w.history, w.pollers[poller].cursor, count);
    PollSteps(w, poller, count, limit);
  }

  lemma ReadIsAfter(log: Log, h: seq<Entry>, cursor: ID, count: nat)
    requires LogInv(log, h)
    ensures var told := ReadAfter(log.stream, cursor, count);
            told == AtMost(After(h[|h| - |log.stream|..], cursor), count) && (told != [] ==> Less(cursor, told[|told| - 1].id))
  {
    SuffixSorted(h, |h| - |log.stream|);
    AfterIsTheRest(log.stream, cursor);
    ToldIsAfter(log.stream, cursor, count);
  }

  lemma ToldIsAfter(stream: seq<Entry>, cursor: ID, count: nat)
    requires Sorted(stream)
    ensures var told := ReadAfter(stream, cursor, count); told != [] ==> Less(cursor, told[|told| - 1].id)
  {
    RankMeaning(stream, cursor);
  }

  /** In every run the log keeps the newest removals, as many as its limit allows. */
  lemma {:induction false} LogKeepsTheLast(limit: nat, steps: seq<Step>)
    ensures var w := Reached(limit, steps);
            |w.log.stream| == (if |w.history| <= limit then |w.history| else limit) && w.log.stream == w.history[|w.history| - |w.log.stream|..]
  {
    TruncationIsExact(limit, steps, ZERO);
    if steps != [] {
      LogKeepsTheLast(limit, steps[..|steps| - 1]);
      RecordKeepsSize(Reached(limit, steps[..|steps| - 1]), steps[|steps| - 1], limit);
    }
  }

  lemma RecordKeepsSize(w: World, step: Step, limit: nat)
    requires |w.log.stream| == if |w.history| <= limit then |w.history| else limit
    ensures var w' := Apply(w, step, limit); |w'.log.stream| == if |w'.history| <= limit then |w'.history| else limit
  {
  }
}
