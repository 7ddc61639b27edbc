/** The seqlock and the window handshake of PeriodStats as interleaved steps of two threads: the loop
    inside record(), and the reporter of control_node.cpp, which takes a snapshot, at once asks for a
    new window, and summarises the difference to its previous snapshot.

    Between the odd and the even store of the sequence word the loop's stores take effect in any
    order, those that do not depend on window_request before it is loaded too, and the reporter's loads
    happen in any order between its two readings of it; the two fences allow no more (ISO/IEC
    14882:2017, section 32.9). Each single load or store is one step. */
module StatsProtocol {
  import Timebase
  import ControlLoop
  import opened PeriodStats
  import opened Reporting

  const TWO_31 := 0x8000_0000

  /** The nine published data words. */
  datatype Word = WindowWord | CountWord | SumWord | SumSqWord | OverrunsWord | ClampsWord | MinWord | MaxWord | LatenessWord

  const ALL_WORDS: set<Word> :=
    {WindowWord, CountWord, SumWord, SumSqWord, OverrunsWord, ClampsWord, MinWord, MaxWord, LatenessWord}

  /** The words whose new values do not depend on window_request. */
  const COUNTER_WORDS: set<Word> := {CountWord, SumWord, SumSqWord, OverrunsWord, ClampsWord}

  function Load(m: Snapshot, w: Word): int {
    match w
    case WindowWord => m.window
    case CountWord => m.count
    case SumWord => m.sumUs
    case SumSqWord => m.sumSqUs2
    case OverrunsWord => m.overruns
    case ClampsWord => m.clamps
    case MinWord => m.minNs
    case MaxWord => m.maxNs
    case LatenessWord => m.maxLatenessNs
  }

  function Store(m: Snapshot, w: Word, v: int): Snapshot {
    match w
    case WindowWord => m.(window := v)
    case CountWord => m.(count := v)
    case SumWord => m.(sumUs := v)
    case SumSqWord => m.(sumSqUs2 := v)
    case OverrunsWord => m.(overruns := v)
    case ClampsWord => m.(clamps := v)
    case MinWord => m.(minNs := v)
    case MaxWord => m.(maxNs := v)
    case LatenessWord => m.(maxLatenessNs := v)
  }

  lemma StoreThenLoad(m: Snapshot, w: Word, v: int, x: Word)
    ensures Load(Store(m, w, v), x) == if x == w then v else Load(m, x)
  {
  }

  lemma WordsDetermine(a: Snapshot, b: Snapshot)
    requires forall w :: w in ALL_WORDS ==> Load(a, w) == Load(b, w)
    ensures a == b
  {
    assert Load(a, WindowWord) == Load(b, WindowWord);
    assert Load(a, CountWord) == Load(b, CountWord);
    assert Load(a, SumWord) == Load(b, SumWord);
    assert Load(a, SumSqWord) == Load(b, SumSqWord);
    assert Load(a, OverrunsWord) == Load(b, OverrunsWord);
    assert Load(a, ClampsWord) == Load(b, ClampsWord);
    assert Load(a, MinWord) == Load(b, MinWord);
    assert Load(a, MaxWord) == Load(b, MaxWord);
    assert Load(a, LatenessWord) == Load(b, LatenessWord);
  }

  /** Entered: the sequence word is odd, window_request not loaded yet, and `base` what the fields held.
      Storing: `target` is what they will hold, `seen` how many resets had been requested when
      window_request was loaded. In both, `left` are the words not stored yet. */
  datatype Writer =
    | Idle
    | Entered(sample: CycleSample, base: Snapshot, left: set<Word>)
    | Storing(sample: CycleSample, target: Snapshot, left: set<Word>, seen: nat)

  datatype Reader =
    | AtRest
    | Trying
    | Reading(before: int, taken: set<Word>, copy: Snapshot)
    | Holding(current: Snapshot)

  /** A report as issued, with what it was made from: the log prefixes its two snapshots fold, how many
      records had completed when it requested the next window, and whether one was in flight that had
      loaded window_request already. */
  datatype Issued = Issued(report: Report, prevLen: nat, curLen: nat, mark: nat, loaded: bool)

  /** The first record that can see the window a report requested. */
  function FirstToSee(r: Issued): nat {
    r.mark + if r.loaded then 1 else 0
  }

  datatype State = State(
    // shared words
    seqno: int, memory: Snapshot, windowRequest: int,
    // program counters and locals
    writer: Writer, reader: Reader,
    // the reporter's own state
    previous: Snapshot, expectedWindow: int,
    // history: completed records, resets requested, and where in the log calls began and ended
    log: seq<Entry>, requests: nat,
    callStart: nat, attemptStart: nat, heldLen: nat, previousLen: nat,
    issued: seq<Issued>)

  const INIT := State(0, EMPTY, 0, Idle, AtRest, EMPTY, 0, [], 0, 0, 0, 0, 0, [])

  datatype Action =
    | BeginRecord(sample: CycleSample)
    | LoadRequest
    | StoreWord(w: Word)
    | EndRecord
    | BeginSnapshot
    | ReadSeq
    | ReadWord(w: Word)
    | Recheck
    | RequestReset

  /** One step of one thread. An action whose thread is elsewhere changes nothing, so every sequence of
      actions is a run. */
  function Step(s: State, a: Action): State {
    match a
    case BeginRecord(x) =>
      if s.writer.Idle? then s.(seqno := (s.seqno + 1) % TWO_32, writer := Entered(x, s.memory, ALL_WORDS)) else s
    case LoadRequest =>
      if s.writer.Entered? then
        s.(writer := Storing(s.writer.sample, Recorded(s.writer.base, s.windowRequest, s.writer.sample),
                             s.writer.left, s.requests))
      else s
    case StoreWord(w) =>
      if s.writer.Storing? && w in s.writer.left then
        s.(memory := Store(s.memory, w, Load(s.writer.target, w)), writer := s.writer.(left := s.writer.left - {w}))
      else if s.writer.Entered? && w in s.writer.left && w in COUNTER_WORDS then
        s.(memory := Store(s.memory, w, Load(Recorded(s.writer.base, 0, s.writer.sample), w)),
           writer := Entered(s.writer.sample, s.writer.base, s.writer.left - {w}))
      else s
    case EndRecord =>
      if s.writer.Storing? && s.writer.left == {} then
        s.(seqno := (s.seqno + 1) % TWO_32, writer := Idle, log := s.log + [Entry(s.writer.sample, s.writer.seen)])
      else s
    case BeginSnapshot =>
      if s.reader.AtRest? then s.(reader := Trying, callStart := |s.log|) else s
    case ReadSeq =>
      if s.reader.Trying? && s.seqno % 2 == 0 then
        s.(reader := Reading(s.seqno, {}, EMPTY), attemptStart := |s.log|)
      else s
    case ReadWord(w) =>
      if s.reader.Reading? && w !in s.reader.taken then
        s.(reader := s.reader.(taken := s.reader.taken + {w}, copy := Store(s.reader.copy, w, Load(s.memory, w))))
      else s
    case Recheck =>
      if s.reader.Reading? && s.reader.taken == ALL_WORDS then
        if s.seqno == s.reader.before then s.(reader := Holding(s.reader.copy), heldLen := s.attemptStart)
        else s.(reader := Trying)
      else s
    case RequestReset =>
      if s.reader.Holding? then
        var cur := s.reader.current;
        var window := (s.windowRequest + 1) % TWO_32;
        s.(windowRequest := window, requests := s.requests + 1, expectedWindow := window,
           reader := AtRest, previous := cur, previousLen := s.heldLen,
           issued := s.issued + [Issued(Summarize(s.previous, cur, s.expectedWindow), s.previousLen, s.heldLen,
                                        |s.log|, s.writer.Storing?)])
      else s
  }

  function Exec(run: seq<Action>): State {
    if run == [] then INIT else Step(Exec(run[..|run| - 1]), run[|run| - 1])
  }

  /** How many resets the last completed record had seen. */
  function LastSeen(log: seq<Entry>): nat {
    if log == [] then 0 else log[|log| - 1].requests
  }

  /** The environment assumption: fewer than 2^31 records complete during one snapshot attempt, fewer
      than 2^32 resets are requested that no record has seen, fewer than 2^64 records in all. */
  predicate Bounds(s: State) {
    && (s.reader.Reading? ==> |s.log| < s.attemptStart + TWO_31)
    && s.requests < LastSeen(s.log) + TWO_32
    && |s.log| < TWO_64
  }

  predicate Bounded(run: seq<Action>) {
    Bounds(Exec(run)) && (run != [] ==> Bounded(run[..|run| - 1]))
  }

  // ----- what holds in every run, bounded or not -----

  /** The sequence word counts stores modulo 2^32, and an attempt starts from an even one. */
  predicate SeqInv(s: State) {
    && s.seqno == (2 * |s.log| + if s.writer.Idle? then 0 else 1) % TWO_32
    && (s.reader.Reading? ==> s.attemptStart <= |s.log| && s.reader.before == (2 * s.attemptStart) % TWO_32)
  }

  lemma ModNext(x: nat)
    ensures (x % TWO_32 + 1) % TWO_32 == (x + 1) % TWO_32
  {
  }

  lemma SeqInvStep(s: State, a: Action)
    requires SeqInv(s)
    ensures SeqInv(Step(s, a))
  {
    hide Recorded, Store, Load, Summarize;
    match a
    case BeginRecord(_) => ModNext(2 * |s.log|);
    case EndRecord => ModNext(2 * |s.log| + 1);
    case _ =>
  }

  lemma {:induction false} SeqInvHolds(run: seq<Action>)
    ensures SeqInv(Exec(run))
  {
    if run == [] {
      assert SeqInv(INIT);
    } else {
      hide SeqInv, Step;
      SeqInvHolds(run[..|run| - 1]);
      SeqInvStep(Exec(run[..|run| - 1]), run[|run| - 1]);
    }
  }

  /** What the final comparison of an attempt can and cannot tell, with no assumption at all: it
      passes exactly when the loop is outside record() and a multiple of 2^31 records have completed
      since the attempt began. The bound in `Bounds` is the exact one. */
  lemma RecheckIsExact(run: seq<Action>)
    requires var s := Exec(run); s.reader.Reading?
    ensures var s := Exec(run);
            s.seqno == s.reader.before <==> s.writer.Idle? && (|s.log| - s.attemptStart) % TWO_31 == 0
  {
    SeqInvHolds(run);
    hide Exec;
  }

  /** An attempt: it begins only on an even sequence word, with nothing read; once all words are read it
      returns the copy if the word is unchanged and otherwise starts over, keeping nothing of it. */
  lemma AttemptsStartOver(s: State)
    ensures var t := Step(s, ReadSeq);
            s.reader.Trying? ==> if s.seqno % 2 == 0 then t.reader == Reading(s.seqno, {}, EMPTY) else t == s
    ensures s.reader.Reading? && s.reader.taken == ALL_WORDS ==>
              Step(s, Recheck).reader == if s.seqno == s.reader.before then Holding(s.reader.copy) else Trying
    ensures s.reader.Reading? && s.reader.taken != ALL_WORDS ==> Step(s, Recheck) == s
  {
    hide Summarize, Recorded, Store, Load;
  }

  // ----- atomicity -----

  predicate LogInv(s: State) {
    && s.windowRequest == s.requests % TWO_32
    && (forall i, j :: 0 <= i <= j < |s.log| ==> s.log[i].requests <= s.log[j].requests <= s.requests)
    && (forall i :: 0 < i < |s.log| ==> s.log[i].requests < s.log[i - 1].requests + TWO_32)
    && (s.writer.Storing? ==> LastSeen(s.log) <= s.writer.seen <= s.requests
                              && s.writer.seen < LastSeen(s.log) + TWO_32)
  }

  /** Memory is the fold of the log, except for the words the record in flight has stored already. */
  ghost predicate MemoryInv(s: State) {
    match s.writer
    case Storing(x, target, left, seen) =>
      && target == Fold(s.log + [Entry(x, seen)])
      && forall w :: w in ALL_WORDS ==> Load(s.memory, w) == Load(if w in left then Fold(s.log) else target, w)
    case Entered(x, base, left) =>
      && base == Fold(s.log) && ALL_WORDS - left <= COUNTER_WORDS
      && forall w :: w in ALL_WORDS ==> Load(s.memory, w) == Load(if w in left then base else Recorded(base, 0, x), w)
    case Idle => s.memory == Fold(s.log)
  }

  lemma CountersIgnoreRequest(base: Snapshot, p: int, q: int, x: CycleSample, w: Word)
    requires w in COUNTER_WORDS
    ensures Load(Recorded(base, p, x), w) == Load(Recorded(base, q, x), w)
  {
  }

  /** A copy in progress is clean as long as no record has begun since the attempt did. */
  ghost predicate CopyInv(s: State) {
    s.reader.Reading? && |s.log| == s.attemptStart && s.writer.Idle? ==>
      forall w :: w in s.reader.taken ==> Load(s.reader.copy, w) == Load(Fold(s.log), w)
  }

  ghost predicate SnapshotInv(s: State) {
    && s.callStart <= |s.log|
    && (s.reader.Reading? ==> s.callStart <= s.attemptStart <= |s.log|)
    && s.previousLen <= |s.log| && s.previous == Fold(s.log[..s.previousLen])
    && (!s.reader.AtRest? ==> s.previousLen <= s.callStart)
    && (s.reader.Holding? ==>
          && s.callStart <= s.heldLen <= |s.log|
          && s.reader.current == Fold(s.log[..s.heldLen])
          && s.requests < LastSeen(s.log[..s.heldLen]) + TWO_32)
  }

  lemma LogInvStep(s: State, a: Action)
    requires LogInv(s) && Bounds(s)
    ensures LogInv(Step(s, a))
  {
    hide Recorded, Store, Load, Summarize;
  }

  lemma FoldAppend(log: seq<Entry>, e: Entry)
    ensures Fold(log + [e]) == Recorded(Fold(log), e.requests % TWO_32, e.sample)
  {
    hide Recorded;
    assert (log + [e])[..|log|] == log;
  }

  lemma MemoryInvStep(s: State, a: Action)
    requires LogInv(s) && MemoryInv(s)
    ensures MemoryInv(Step(s, a))
  {
    hide Recorded, Fold, Store, Load, Summarize;
    match a
    case LoadRequest =>
      if s.writer.Entered? {
        FoldAppend(s.log, Entry(s.writer.sample, s.requests));
        forall w | w in ALL_WORDS && w !in s.writer.left
          ensures Load(s.memory, w) == Load(Recorded(s.writer.base, s.windowRequest, s.writer.sample), w)
        {
          CountersIgnoreRequest(s.writer.base, 0, s.windowRequest, s.writer.sample, w);
        }
      }
    case StoreWord(w) =>
      if !s.writer.Idle? && w in s.writer.left {
        var v := Load(if s.writer.Storing? then s.writer.target else Recorded(s.writer.base, 0, s.writer.sample), w);
        forall x ensures Load(Store(s.memory, w, v), x) == if x == w then v else Load(s.memory, x) {
          StoreThenLoad(s.memory, w, v, x);
        }
      }
    case EndRecord =>
      if s.writer.Storing? && s.writer.left == {} {
        WordsDetermine(s.memory, s.writer.target);
      }
    case _ =>
  }

  lemma CopyInvStep(s: State, a: Action)
    requires LogInv(s) && MemoryInv(s) && CopyInv(s) && SeqInv(s)
    ensures CopyInv(Step(s, a))
  {
    hide Recorded, Fold, Store, Load, Summarize;
    match a
    case ReadWord(w) =>
      if s.reader.Reading? && w !in s.reader.taken {
        forall x ensures Load(Step(s, a).reader.copy, x) == if x == w then Load(s.memory, w) else Load(s.reader.copy, x) {
          StoreThenLoad(s.reader.copy, w, Load(s.memory, w), x);
        }
      }
    case _ =>
  }

  lemma SnapshotInvStep(s: State, a: Action)
    requires LogInv(s) && MemoryInv(s) && CopyInv(s) && SeqInv(s) && SnapshotInv(s) && Bounds(s)
    ensures SnapshotInv(Step(s, a))
  {
    hide Recorded, Fold, Store, Load, Summarize, SeqInv, MemoryInv, CopyInv;
    match a
    case EndRecord =>
      if s.writer.Storing? && s.writer.left == {} {
        PrefixesStay(s, Entry(s.writer.sample, s.writer.seen));
      }
    case Recheck =>
      if s.reader.Reading? && s.reader.taken == ALL_WORDS && s.seqno == s.reader.before {
        PassedCheck(s);
      }
    case _ =>
  }

  /** A check that passes within the bounds proves that no record began since the attempt did. */
  lemma NothingRecorded(s: State)
    requires SeqInv(s) && Bounds(s) && s.reader.Reading? && s.seqno == s.reader.before
    ensures |s.log| == s.attemptStart && s.writer.Idle?
  {
  }

  lemma PassedCheck(s: State)
    requires SeqInv(s) && MemoryInv(s) && CopyInv(s) && Bounds(s)
    requires s.reader.Reading? && s.reader.taken == ALL_WORDS && s.seqno == s.reader.before
    ensures |s.log| == s.attemptStart && s.log[..s.attemptStart] == s.log && s.reader.copy == Fold(s.log)
  {
    NothingRecorded(s);
    hide Fold, Load, SeqInv;
    WordsDetermine(s.reader.copy, Fold(s.log));
  }

  lemma PrefixesStay(s: State, e: Entry)
    ensures s.previousLen <= |s.log| ==> (s.log + [e])[..s.previousLen] == s.log[..s.previousLen]
    ensures s.heldLen <= |s.log| ==> (s.log + [e])[..s.heldLen] == s.log[..s.heldLen]
  {
  }

  ghost predicate Inv(s: State) {
    SeqInv(s) && LogInv(s) && MemoryInv(s) && CopyInv(s) && SnapshotInv(s)
  }

  lemma {:induction false} InvHolds(run: seq<Action>)
    requires Bounded(run)
    ensures Inv(Exec(run))
  {
    hide SeqInv, LogInv, MemoryInv, CopyInv, SnapshotInv, Step;
    SeqInvHolds(run);
    if run == [] {
      InitInv();
    } else {
      var front, a := run[..|run| - 1], run[|run| - 1];
      InvHolds(front);
      LogInvStep(Exec(front), a);
      MemoryInvStep(Exec(front), a);
      CopyInvStep(Exec(front), a);
      SnapshotInvStep(Exec(front), a);
    }
  }

  lemma InitInv()
    ensures LogInv(INIT) && MemoryInv(INIT) && CopyInv(INIT) && SnapshotInv(INIT)
  {
  }

  /** Atomicity. In every run within the bounds, the snapshot a call returns is the fold of one whole
      prefix of the recorded cycles, never a mix of two. The prefix has at least the records completed
      when the call began and at most those completed now, and successive snapshots never go back. */
  lemma {:induction false} SnapshotsAreAtomic(run: seq<Action>)
    requires Bounded(run)
    ensures var s := Exec(run);
            && s.previousLen <= |s.log| && s.previous == Fold(s.log[..s.previousLen])
            && (s.reader.Holding? ==>
                  && s.previousLen <= s.callStart <= s.heldLen <= |s.log|
                  && s.reader.current == Fold(s.log[..s.heldLen]))
  {
    InvHolds(run);
    hide Exec, Fold;
  }

  // ----- the window handshake -----

  /** issued[k].mark is where in the log reset number k + 1 falls. The records that saw that reset are
      exactly those from there on, less the one in flight at that moment if it had loaded the request
      word before. */
  ghost predicate MarkInv(s: State) {
    && |s.issued| == s.requests && s.expectedWindow == s.requests % TWO_32
    && forall k :: 0 <= k < s.requests ==>
         var m := s.issued[k].mark;
         && m <= |s.log|
         && (forall i :: 0 <= i < |s.log| ==> (s.log[i].requests > k <==> FirstToSee(s.issued[k]) <= i))
         && (s.writer.Storing? ==> (s.writer.seen > k <==> FirstToSee(s.issued[k]) <= |s.log|))
         && (FirstToSee(s.issued[k]) > |s.log| ==> s.writer.Storing?)
  }

  /** Each report summarises the stretch of the log between its snapshot and the one before: no record
      is counted twice and none is missed. */
  ghost predicate ChainInv(s: State) {
    && |s.issued| == s.requests
    && s.previousLen == (if s.issued == [] then 0 else s.issued[|s.issued| - 1].curLen)
    && forall k :: 0 <= k < |s.issued| ==> Chained(s.log, s.issued, k)
  }

  ghost predicate Chained(log: seq<Entry>, issued: seq<Issued>, k: nat)
    requires k < |issued|
  {
    var r := issued[k];
    && r.prevLen <= r.curLen <= r.mark && r.curLen <= |log|
    && r.prevLen == (if k == 0 then 0 else issued[k - 1].curLen)
    && r.report == Summarize(Fold(log[..r.prevLen]), Fold(log[..r.curLen]), k % TWO_32)
    && LastSeen(log[..r.curLen]) <= k < LastSeen(log[..r.curLen]) + TWO_32
  }

  lemma MarkInvStep(s: State, a: Action)
    requires LogInv(s) && MarkInv(s)
    ensures MarkInv(Step(s, a))
  {
    hide Recorded, Fold, Store, Load, Summarize;
  }

  lemma ChainStays(log: seq<Entry>, e: Entry, issued: seq<Issued>, last: Issued, k: nat)
    requires k < |issued| && Chained(log, issued, k)
    ensures Chained(log + [e], issued, k)
    ensures Chained(log, issued + [last], k)
  {
    hide Fold, Summarize;
    var r := issued[k];
    assert (log + [e])[..r.curLen] == log[..r.curLen] && (log + [e])[..r.prevLen] == log[..r.prevLen];
  }

  lemma ChainInvStep(s: State, a: Action)
    requires LogInv(s) && MarkInv(s) && SnapshotInv(s) && ChainInv(s)
    ensures ChainInv(Step(s, a))
  {
    hide Recorded, Fold, Store, Load, Summarize, Chained;
    match a
    case EndRecord =>
      if s.writer.Storing? && s.writer.left == {} {
        forall k | 0 <= k < |s.issued| ensures Chained(Step(s, a).log, s.issued, k) {
          ChainStays(s.log, Entry(s.writer.sample, s.writer.seen), s.issued, Issued(Summarize(EMPTY, EMPTY, 0), 0, 0, 0, false), k);
        }
      }
    case RequestReset =>
      if s.reader.Holding? {
        ChainGrows(s);
      }
    case _ =>
  }

  lemma ChainGrows(s: State)
    requires LogInv(s) && MarkInv(s) && SnapshotInv(s) && ChainInv(s) && s.reader.Holding?
    ensures var t := Step(s, RequestReset);
            forall k :: 0 <= k < |t.issued| ==> Chained(t.log, t.issued, k)
  {
    hide Recorded, Fold, Summarize;
    var t := Step(s, RequestReset);
    forall k | 0 <= k < |t.issued| ensures Chained(t.log, t.issued, k) {
      if k < |s.issued| {
        ChainStays(s.log, Entry(CycleSample(0, 0, false, false), 0), s.issued, t.issued[|s.issued|], k);
      }
    }
  }

  lemma {:induction false} HandshakeInvHolds(run: seq<Action>)
    requires Bounded(run)
    ensures MarkInv(Exec(run)) && ChainInv(Exec(run))
  {
    hide SeqInv, LogInv, MemoryInv, CopyInv, SnapshotInv, Step, Chained;
    if run != [] {
      var front, a := run[..|run| - 1], run[|run| - 1];
      InvHolds(front);
      HandshakeInvHolds(front);
      MarkInvStep(Exec(front), a);
      ChainInvStep(Exec(front), a);
    }
  }

  /** The window handshake, for the k-th report of any run within the bounds.
      - It counts exactly the records from the previous report's snapshot to its own.
      - It is non-stale exactly when no reset had been requested, or some record it folds has seen the
        latest request, number k.
      - A non-stale report's extremes are over exactly the records that saw that request: those from
        WindowStart on.
      - The counted records that are not among them are exactly those between the previous snapshot and
        its request, and the record in flight at the request if it had loaded the request word. */
  lemma WindowHandshake(run: seq<Action>, k: nat)
    requires Bounded(run) && k < |Exec(run).issued|
    ensures var s := Exec(run);
            var r := s.issued[k];
            && r.prevLen <= r.curLen <= |s.log|
            && r.prevLen == (if k == 0 then 0 else s.issued[k - 1].curLen)
            && r.report == Summarize(Fold(s.log[..r.prevLen]), Fold(s.log[..r.curLen]), k % TWO_32)
            && (!r.report.stale <==> k == 0 || exists i :: 0 <= i < r.curLen && s.log[i].requests == k)
            && (!r.report.stale && r.curLen > 0 ==>
                  var w := WindowStart(s.log[..r.curLen]);
                  && AreExtremes(r.report.minNs, r.report.maxNs, r.report.maxLatenessNs, s.log[w..r.curLen])
                  && (forall i :: 0 <= i < r.curLen ==> (s.log[i].requests == k <==> w <= i))
                  && (if k == 0 then w == r.prevLen == 0
                      else r.prevLen <= s.issued[k - 1].mark && w == FirstToSee(s.issued[k - 1])))
  {
    InvHolds(run);
    HandshakeInvHolds(run);
    var s := Exec(run);
    hide Exec, Fold, Summarize;
    assert Chained(s.log, s.issued, k);
    Staleness(s, k);
    if !s.issued[k].report.stale && s.issued[k].curLen > 0 {
      WindowOfReport(s, k);
      if k > 0 {
        assert Chained(s.log, s.issued, k - 1);
      }
    }
  }

  /** How many of some records had not seen the k-th request, or had seen a later one. */
  function Others(records: seq<Entry>, k: nat): nat {
    if records == [] then 0
    else Others(records[..|records| - 1], k) + if records[|records| - 1].requests != k then 1 else 0
  }

  lemma {:induction false} OthersComeFirst(records: seq<Entry>, k: nat, m: nat)
    requires m <= |records|
    requires forall i :: 0 <= i < |records| ==> (records[i].requests == k <==> m <= i)
    ensures Others(records, k) == m
  {
    if records != [] {
      var n := |records| - 1;
      OthersComeFirst(records[..n], k, if m <= n then m else n);
    }
  }

  /** How many counted records a report's extremes do not cover. */
  function Uncovered(s: State, k: nat): nat
    requires k < |s.issued| && s.issued[k].prevLen <= s.issued[k].curLen <= |s.log|
  {
    Others(s.log[s.issued[k].prevLen..s.issued[k].curLen], k)
  }

  /** How far a report's counted set and its window differ, exactly: the window lies within the counted
      set, and what it leaves uncovered is as many records as completed between the previous report's
      snapshot and its request, plus the one in flight at the request if it had loaded the request word.
      So the "at most one" of control_node.cpp is met exactly if those come to at most one. */
  lemma GapIsExact(run: seq<Action>, k: nat)
    requires Bounded(run) && k < |Exec(run).issued|
    requires !Exec(run).issued[k].report.stale && Exec(run).issued[k].curLen > 0
    ensures var s := Exec(run);
            var r := s.issued[k];
            && r.prevLen <= r.curLen <= |s.log|
            && (forall i :: 0 <= i < r.curLen && s.log[i].requests == k ==> r.prevLen <= i)
            && (k == 0 ==> Uncovered(s, k) == 0)
            && (k > 0 ==>
                  var before := s.issued[k - 1];
                  && Uncovered(s, k) == before.mark - r.prevLen + (if before.loaded then 1 else 0)
                  && (Uncovered(s, k) <= 1 <==>
                        before.mark == r.prevLen || (before.mark == r.prevLen + 1 && !before.loaded)))
  {
    hide Exec, Bounded, Fold, Summarize, AreExtremes, Uncovered;
    WindowHandshake(run, k);
    UncoveredAre(Exec(run), k, WindowStart(Exec(run).log[..Exec(run).issued[k].curLen]));
  }

  lemma UncoveredAre(s: State, k: nat, w: nat)
    requires k < |s.issued| && s.issued[k].prevLen <= w <= s.issued[k].curLen <= |s.log|
    requires forall i :: 0 <= i < s.issued[k].curLen ==> (s.log[i].requests == k <==> w <= i)
    ensures Uncovered(s, k) == w - s.issued[k].prevLen
  {
    hide Others;
    var counted := s.log[s.issued[k].prevLen..s.issued[k].curLen];
    assert forall i :: 0 <= i < |counted| ==> counted[i] == s.log[s.issued[k].prevLen + i];
    OthersComeFirst(counted, k, w - s.issued[k].prevLen);
  }

  /** What the k-th report of a run says about its own records: exact counts, whatever the 64-bit sums
      did before, and, when its window is the counted stretch, a mean between the rounded extremes. */
  lemma ReportOfRun(run: seq<Action>, k: nat)
    requires Bounded(run) && k < |Exec(run).issued|
    requires var r := Exec(run).issued[k];
             r.prevLen <= r.curLen <= |Exec(run).log| ==> SumSq(Exec(run).log[r.prevLen..r.curLen]) < TWO_64
    ensures var s := Exec(run);
            var r := s.issued[k];
            && r.prevLen <= r.curLen <= |s.log|
            && r.report.count == r.curLen - r.prevLen
            && r.report.elapsedUs == SumUs(s.log[r.prevLen..r.curLen])
            && r.report.overruns == Overruns(s.log[r.prevLen..r.curLen])
            && r.report.clamps == Clamps(s.log[r.prevLen..r.curLen])
            && (!r.report.stale && r.curLen > 0 && WindowStart(s.log[..r.curLen]) == r.prevLen ==>
                  r.report.count * NsToUsRounded(r.report.minNs) <= r.report.elapsedUs
                  <= r.report.count * NsToUsRounded(r.report.maxNs))
  {
    WindowHandshake(run, k);
    var s := Exec(run);
    var r := s.issued[k];
    assert |s.log| < TWO_64;
    hide Exec, Bounded, Fold, Summarize, SumSq, SumUs, Overruns, Clamps, NsToUsRounded, WindowStart, AreExtremes;
    ReportIsExact(s.log, r.prevLen, r.curLen, k % TWO_32);
    if !r.report.stale && r.curLen > 0 && WindowStart(s.log[..r.curLen]) == r.prevLen {
      MeanOfWindow(s.log[r.prevLen..r.curLen], r.report);
    }
  }

  /** Its mean and variance are those of its own records, for any report that counts one. */
  lemma MomentsOfRun(run: seq<Action>, k: nat)
    requires Bounded(run) && k < |Exec(run).issued| && Exec(run).issued[k].prevLen < Exec(run).issued[k].curLen
    requires var r := Exec(run).issued[k];
             r.curLen <= |Exec(run).log| ==> SumSq(Exec(run).log[r.prevLen..r.curLen]) < TWO_64
    ensures var s := Exec(run);
            var r := s.issued[k];
            && r.curLen <= |s.log|
            && HasMoments(r.report, s.log[r.prevLen..r.curLen])
  {
    WindowHandshake(run, k);
    var s := Exec(run);
    assert |s.log| < TWO_64;
    hide Exec, Bounded, Fold, Summarize, SumSq, HasMoments, WindowStart, AreExtremes;
    ReportMoments(s.log, s.issued[k].prevLen, s.issued[k].curLen, k % TWO_32);
  }

  /** When the records of a run are those of the control loop, a report's elapsed time is within half a
      microsecond per counted cycle of the raw-clock time between the last wake-ups of its two snapshots. */
  lemma ReportMatchesClock(run: seq<Action>, k: nat, start: Timebase.TimeSpec, wakes: seq<Timebase.TimeSpec>, period: int)
    requires Bounded(run) && k < |Exec(run).issued|
    requires period > 0 && PeriodsOf(Exec(run).log) == ControlLoop.Samples(start, wakes, period)
    requires var r := Exec(run).issued[k];
             r.prevLen <= r.curLen <= |Exec(run).log| ==> SumSq(Exec(run).log[r.prevLen..r.curLen]) < TWO_64
    ensures var r := Exec(run).issued[k].report;
            var prevLen, curLen := Exec(run).issued[k].prevLen, Exec(run).issued[k].curLen;
            && prevLen <= curLen <= |wakes|
            && var span := Timebase.ToNs(ControlLoop.WakeBefore(start, wakes, curLen))
                         - Timebase.ToNs(ControlLoop.WakeBefore(start, wakes, prevLen));
               -500 * r.count <= 1000 * r.elapsedUs - span <= 500 * r.count
  {
    ReportOfRun(run, k);
    var s := Exec(run);
    hide Exec, Bounded, SumUs, SumSq, Uncovered, ControlLoop.After;
    assert |ControlLoop.Samples(start, wakes, period)| == |wakes| == |PeriodsOf(s.log)| == |s.log|;
    ElapsedMatchesClock(s.log, start, wakes, period, s.issued[k].prevLen, s.issued[k].curLen);
  }

  lemma MeanOfWindow(window: seq<Entry>, r: Report)
    requires r.count == |window| && r.elapsedUs == SumUs(window)
    requires AreExtremes(r.minNs, r.maxNs, r.maxLatenessNs, window)
    ensures r.count * NsToUsRounded(r.minNs) <= r.elapsedUs <= r.count * NsToUsRounded(r.maxNs)
  {
    MeanBetweenExtremes(window, r.minNs, r.maxNs);
  }

  lemma Staleness(s: State, k: nat)
    requires LogInv(s) && |s.log| < TWO_64 && k < |s.issued| && Chained(s.log, s.issued, k)
    ensures var r := s.issued[k];
            && (!r.report.stale <==> LastSeen(s.log[..r.curLen]) == k)
            && (!r.report.stale <==> k == 0 || exists i :: 0 <= i < r.curLen && s.log[i].requests == k)
  {
    var c := s.issued[k].curLen;
    var prefix := s.log[..c];
    WindowNames(prefix);
    hide Fold;
    Mod32Equal(LastSeen(prefix), k);
    if c > 0 {
      assert prefix[c - 1] == s.log[c - 1];
    }
  }

  /** The published window number is that of the last record. */
  lemma WindowNames(log: seq<Entry>)
    requires Countable(log)
    ensures Fold(log).window == LastSeen(log) % TWO_32
  {
    hide Recorded;
    if log != [] {
      hide Fold;
      FoldExtremes(log);
    }
  }

  lemma WindowOfReport(s: State, k: nat)
    requires LogInv(s) && MarkInv(s) && |s.log| < TWO_64 && k < |s.issued| && Chained(s.log, s.issued, k)
    requires var c := s.issued[k].curLen; c > 0 && LastSeen(s.log[..c]) == k
    ensures var r := s.issued[k];
            var w := WindowStart(s.log[..r.curLen]);
            && AreExtremes(r.report.minNs, r.report.maxNs, r.report.maxLatenessNs, s.log[w..r.curLen])
            && (forall i :: 0 <= i < r.curLen ==> (s.log[i].requests == k <==> w <= i))
            && (k == 0 ==> w == 0)
            && (k > 0 ==> w == FirstToSee(s.issued[k - 1]))
  {
    hide Fold, AreExtremes;
    var c := s.issued[k].curLen;
    var prefix := s.log[..c];
    FoldExtremes(prefix);
    var w := WindowStart(prefix);
    assert prefix[w..] == s.log[w..c];
    assert forall i :: 0 <= i < c ==> prefix[i] == s.log[i];
  }

  // ----- how long the gap can be -----

  lemma Extend(run: seq<Action>, a: Action) returns (longer: seq<Action>)
    requires Bounded(run) && Bounds(Step(Exec(run), a))
    ensures Bounded(longer) && Exec(longer) == Step(Exec(run), a)
  {
    longer := run + [a];
    assert longer[..|run|] == run;
  }

  /** Lets the loop complete one whole record(). */
  lemma RecordOnce(run: seq<Action>, x: CycleSample) returns (longer: seq<Action>)
    requires Bounded(run) && Exec(run).writer.Idle? && !Exec(run).reader.Reading?
    requires |Exec(run).log| + 1 < TWO_64 && LogInv(Exec(run))
    ensures Bounded(longer)
    ensures var s, t := Exec(run), Exec(longer);
            && t.writer.Idle? && t.log == s.log + [Entry(x, s.requests)]
            && t.reader == s.reader && t.issued == s.issued && t.requests == s.requests
            && t.previousLen == s.previousLen && t.heldLen == s.heldLen
  {
    assert Bounds(Exec(run));
    hide Recorded, Store, Load, Exec, Bounded, Summarize;
    var s := Exec(run);
    longer := Extend(run, BeginRecord(x));
    longer := Extend(longer, LoadRequest);
    while Exec(longer).writer.left != {}
      invariant Bounded(longer)
      invariant var t := Exec(longer);
                && t.writer.Storing? && t.writer.sample == x && t.writer.seen == s.requests && t.log == s.log
                && t.reader == s.reader && t.issued == s.issued && t.requests == s.requests
                && t.previousLen == s.previousLen && t.heldLen == s.heldLen
      decreases Exec(longer).writer.left
    {
      var w :| w in Exec(longer).writer.left;
      longer := Extend(longer, StoreWord(w));
    }
    longer := Extend(longer, EndRecord);
  }

  lemma ReadWords(run: seq<Action>, words: set<Word>) returns (longer: seq<Action>)
    requires Bounded(run) && Exec(run).reader.Reading? && Exec(run).reader.taken == {}
    ensures Bounded(longer)
    ensures var s, t := Exec(run), Exec(longer);
            && t.reader.Reading? && t.reader.taken == words && t.reader.before == s.reader.before
            && t == s.(reader := t.reader)
  {
    longer := run;
    assert Bounds(Exec(run));
    hide Store, Load, Exec, Bounded;
    var left := words;
    while left != {}
      invariant Bounded(longer) && left <= words && Bounds(Exec(longer))
      invariant var s, t := Exec(run), Exec(longer);
                && t.reader.Reading? && t.reader.taken == words - left
                && t.reader.before == s.reader.before && t == s.(reader := t.reader)
      decreases left
    {
      var w :| w in left;
      longer := Extend(longer, ReadWord(w));
      left := left - {w};
    }
  }

  lemma QuietSnapshot(s: State, copy: Snapshot)
    requires s.reader.AtRest? && s.seqno % 2 == 0
    ensures var begun := Step(s, BeginSnapshot);
            && begun == s.(reader := Trying, callStart := |s.log|)
            && Step(begun, ReadSeq) == begun.(reader := Reading(s.seqno, {}, EMPTY), attemptStart := |s.log|)
    ensures Step(s.(reader := Reading(s.seqno, ALL_WORDS, copy)), Recheck)
         == s.(reader := Holding(copy), heldLen := s.attemptStart)
  {
  }

  /** Lets the reporter complete one whole snapshot() while the loop sleeps. */
  lemma SnapshotOnce(run: seq<Action>) returns (longer: seq<Action>)
    requires Bounded(run) && Exec(run).writer.Idle? && Exec(run).reader.AtRest?
    ensures Bounded(longer)
    ensures var s, t := Exec(run), Exec(longer);
            && t.writer.Idle? && t.reader.Holding? && t.heldLen == |s.log| && t.log == s.log
            && t.issued == s.issued && t.requests == s.requests && t.previousLen == s.previousLen
  {
    SeqInvHolds(run);
    var s := Exec(run);
    assert s.seqno % 2 == 0 && Bounds(s);
    hide Step, Exec, Bounded, SeqInv;
    QuietSnapshot(s, EMPTY);
    longer := Extend(run, BeginSnapshot);
    longer := Extend(longer, ReadSeq);
    longer := ReadWords(longer, ALL_WORDS);
    var r := Exec(longer);
    QuietSnapshot(r.(reader := AtRest), r.reader.copy);
    longer := Extend(longer, Recheck);
  }

  lemma EmptyRun()
    ensures Bounded([]) && Exec([]) == INIT
  {
  }

  /** control_node.cpp calls the gap "at most one cycle". It is not bounded: a reporter held up between
      snapshot() and request_window_reset() lets any number n of cycles complete there, and the next
      report, not stale, counts all n of them while its extremes cover none. */
  lemma {:induction false} GapCanBeAnyLength(n: nat) returns (run: seq<Action>)
    requires n + 1 < TWO_64
    ensures Bounded(run)
    ensures var s := Exec(run);
            && |s.issued| == 2 && !s.issued[1].report.stale
            && s.issued[1].prevLen == 0 && s.issued[1].curLen == n + 1 == |s.log|
            && Uncovered(s, 1) == n
  {
    hide Recorded, Store, Load, Summarize, Fold, Exec, Bounded, AreExtremes, WindowStart, Uncovered;
    run := LateRequest(n);
    run := RecordOnce(run, CycleSample(0, 0, false, false));
    run := SnapshotOnce(run);
    InvHolds(run);
    run := Extend(run, RequestReset);
    CountedLate(run, n);
  }

  /** The reporter's first round, with n cycles between its snapshot and its request. */
  lemma LateRequest(n: nat) returns (run: seq<Action>)
    requires n + 1 < TWO_64
    ensures Bounded(run)
    ensures var s := Exec(run);
            && s.writer.Idle? && s.reader.AtRest? && |s.log| == n && s.requests == 1 && s.previousLen == 0
            && |s.issued| == 1 && s.issued[0].mark == n && !s.issued[0].loaded
            && LogInv(s)
  {
    hide Recorded, Store, Load, Summarize, Fold, Exec, Bounded;
    run := [];
    EmptyRun();
    run := SnapshotOnce(run);
    run := RecordMany(run, CycleSample(0, 0, false, false), n);
    run := Extend(run, RequestReset);
    InvHolds(run);
  }

  lemma CountedLate(run: seq<Action>, n: nat)
    requires Bounded(run)
    requires var s := Exec(run);
             && |s.issued| == 2 && s.issued[0].mark == n && !s.issued[0].loaded
             && s.issued[1].prevLen == 0 && s.issued[1].curLen == n + 1 == |s.log| && s.log[n].requests == 1
    ensures !Exec(run).issued[1].report.stale && Uncovered(Exec(run), 1) == n
  {
    hide Recorded, Store, Load, Summarize, Fold, Exec, Bounded, AreExtremes, WindowStart, Uncovered;
    WindowHandshake(run, 1);
    GapIsExact(run, 1);
  }

  lemma {:induction false} RecordMany(run: seq<Action>, x: CycleSample, n: nat) returns (longer: seq<Action>)
    requires Bounded(run) && Exec(run).writer.Idle? && Exec(run).reader.Holding?
    requires |Exec(run).log| + n < TWO_64
    ensures Bounded(longer)
    ensures var s, t := Exec(run), Exec(longer);
            && t.writer.Idle? && |t.log| == |s.log| + n
            && t.reader == s.reader && t.issued == s.issued && t.requests == s.requests
            && t.previousLen == s.previousLen && t.heldLen == s.heldLen
            && (n > 0 ==> LastSeen(t.log) == s.requests) && (n == 0 ==> longer == run)
  {
    longer := run;
    if n > 0 {
      hide Exec, Bounded;
      longer := RecordMany(run, x, n - 1);
      InvHolds(longer);
      longer := RecordOnce(longer, x);
    }
  }
}
