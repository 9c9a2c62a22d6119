/** Resumable image downloads: many requests, one slot per hashed destination,
    a partial file that a later attempt continues, and a final file that is
    only ever a finished, checked partial. Status codes and Content-Range are
    those of RFC 9110, sections 14.4, 15.3.7 and 15.5.17. */
module ImageDownload {
  import opened Text

  type Bytes = string

  // ---- contentRangeStart ----

  /** The first byte position of "bytes <start>-<end>/<total>", or nothing. */
  function ContentRangeStart(header: string): Option<nat> {
    var value := TrimSpace(header);
    if !("bytes " <= value) then None
    else
      var range := TrimSpace(value[6..]);
      var dash := IndexOf(range, '-');
      if dash == 0 || dash == |range| then None
      else
        match Atoi(range[..dash])
        case None => None
        case Some(n) => if n < 0 then None else Some(n)
  }

  lemma RangeWithDash(digits: string, rest: string)
    requires digits != "" && AllDigits(digits) && rest != "" && !IsSpace(rest[|rest| - 1])
    ensures ContentRangeStart("bytes " + (digits + "-" + rest)) ==
            match Atoi(digits) case None => None case Some(n) => if n < 0 then None else Some(n)
  {
    var range := digits + "-" + rest;
    var header := "bytes " + range;
    assert header[6..] == range;
    assert range[0] == digits[0] && range[|range| - 1] == rest[|rest| - 1];
    TrimNothing(header);
    TrimNothing(range);
    IndexOfAfter(digits, '-', rest);
    assert range == digits + ['-'] + rest;
    assert range[..|digits|] == digits;
  }

  /** A Content-Range as section 14.4 writes it gives back its first position. */
  lemma ContentRangeRoundTrip(start: nat, end: nat, total: string)
    requires start <= INT64_MAX
    requires total == "*" || (total != "" && AllDigits(total))
    ensures ContentRangeStart("bytes " + (Itoa(start) + "-" + (Itoa(end) + "/" + total))) == Some(start)
  {
    AtoiItoa(start);
    var rest := Itoa(end) + "/" + total;
    assert rest[|rest| - 1] == total[|total| - 1];
    RangeWithDash(Itoa(start), rest);
  }

  /** The unsatisfied-range form carries no position to resume at. */
  lemma UnsatisfiedRangeHasNoStart(total: string)
    requires total != "" && AllDigits(total)
    ensures ContentRangeStart("bytes */" + total) == None
  {
    var header := "bytes */" + total;
    var range := "*/" + total;
    assert header[6..] == range;
    TrimNothing(header);
    TrimNothing(range);
    assert '-' !in range;
  }

  // ---- one request at its destination ----

  /** verifySHA256: whether contents have a digest. */
  type Matches = (Bytes, string) -> bool

  /** A file at its final name, and the digest its download was asked to have. */
  datatype Final = Final(contents: Bytes, expected: string)

  datatype Files = Files(partial: Option<Bytes>, final: Option<Final>)

  const NO_FILES := Files(None, None)

  /** How far a request is: resume is the offset it asked for, have how much of
      the object it has on disk. */
  datatype Stage =
    | Waiting | Holding | Asked(resume: nat) | Writing(have: nat) | Complete | Verified | Done(ok: bool)

  predicate Active(st: Stage) { !st.Waiting? && !st.Done? }

  datatype Move =
    | Acquire
    | GiveUp
    | Look
    | NoAnswer
    | Answer(status: int, contentRange: string, opens: bool)
    | Chunk(data: Bytes)
    | Break(written: Bytes, kept: bool) // a read or write error; kept when canceled or stalled
    | Eof
    | Verify(readable: bool)
    | Install(works: bool, kept: bool)

  predicate Allows(st: Stage, m: Move) {
    match m
    case Acquire => st.Waiting?
    case GiveUp => st.Waiting?
    case Look => st.Holding?
    case NoAnswer => st.Asked?
    case Answer(_, _, _) => st.Asked?
    case Chunk(_) => st.Writing?
    case Break(_, _) => st.Writing?
    case Eof => st.Writing?
    case Verify(_) => st.Complete?
    case Install(_, _) => st.Verified?
  }

  function Dropped(f: Files): Files { f.(partial := None) }

  /** Appending to a partial file that another handler unlinked reaches no name. */
  function Appended(f: Files, data: Bytes): Files {
    if f.partial.Some? then f.(partial := Some(f.partial.value + data)) else f
  }

  /** The server declined to resume where it was asked to. */
  predicate ResumeRefused(resume: nat, status: int, contentRange: string) {
    resume > 0 && (status == 416 || (status == 206 && ContentRangeStart(contentRange) != Some(resume)))
  }

  function Answered(f: Files, resume: nat, status: int, contentRange: string, opens: bool): (Files, Stage) {
    if ResumeRefused(resume, status, contentRange) then (Dropped(f), Done(false))
    else if status == 206 && resume > 0 then
      if opens && f.partial.Some? then (f, Writing(resume)) else (f, Done(false))
    else if status == 200 then
      if opens then (f.(partial := Some("")), Writing(0)) else (f, Done(false))
    else (f, Done(false))
  }

  function Moved(matches: Matches, digest: string, f: Files, st: Stage, m: Move): (Files, Stage)
    requires Allows(st, m)
  {
    match m
    case Acquire => (f, Holding)
    case GiveUp => (f, Done(false))
    case Look =>
      if f.final.Some? then (f, Done(true))
      else (f, Asked(if f.partial.Some? then |f.partial.value| else 0))
    case NoAnswer => (f, Done(false))
    case Answer(status, contentRange, opens) => Answered(f, st.resume, status, contentRange, opens)
    case Chunk(data) => (Appended(f, data), Writing(st.have + |data|))
    case Break(written, kept) =>
      var f1 := Appended(f, written);
      (if kept then f1 else Dropped(f1), Done(false))
    case Eof => (f, if digest == "" then Verified else Complete)
    case Verify(readable) =>
      if readable && f.partial.Some? && matches(f.partial.value, digest) then (f, Verified)
      else (Dropped(f), Done(false))
    case Install(works, kept) =>
      if works && f.partial.Some? then (Files(None, Some(Final(f.partial.value, digest))), Done(true))
      else (if kept then f else Dropped(f), Done(false))
  }

  /** Exactly a refused resume, or a partial already gone, leaves no partial
      behind an answer; so the next attempt starts from zero. */
  lemma RefusedResumeDropsPartial(f: Files, resume: nat, status: int, contentRange: string, opens: bool)
    ensures var (f', st') := Answered(f, resume, status, contentRange, opens);
            && f'.final == f.final
            && (f'.partial.None? <==> ResumeRefused(resume, status, contentRange) || (f.partial.None? && !(status == 200 && opens)))
            && (ResumeRefused(resume, status, contentRange) ==> st' == Done(false))
            && (st'.Writing? ==> f'.partial.Some? && (st'.have == 0 || st'.have == resume))
  {
  }

  // ---- what a destination keeps ----

  /** Where in the object the server stands: a 200 begins at its first byte, a
      206 at the byte its Content-Range announces, and each chunk moves on. It
      is the server's own account; nothing the client decides enters into it. */
  function Served(served: Option<nat>, m: Move): Option<nat> {
    match m
    case Answer(status, contentRange, _) =>
      if status == 200 then Some(0) else if status == 206 then ContentRangeStart(contentRange) else None
    case Chunk(data) => if served.Some? then Some(served.value + |data|) else None
    case _ => served
  }

  ghost predicate Excerpt(image: Bytes, position: nat, data: Bytes) {
    position + |data| <= |image| && data == image[position..position + |data|]
  }

  /** A server of one fixed image sends its bytes from where it said it stands;
      from a server that did not say, anything may come. */
  ghost predicate Honest(image: Bytes, served: Option<nat>, m: Move) {
    match m
    case Chunk(data) => served.Some? ==> Excerpt(image, served.value, data)
    case Break(written, _) => served.Some? ==> Excerpt(image, served.value, written)
    case _ => true
  }

  /** The final file has the digest it was asked to have. */
  ghost predicate FinalOk(matches: Matches, f: Files) {
    f.final.Some? && f.final.value.expected != "" ==> matches(f.final.value.contents, f.final.value.expected)
  }

  ghost predicate PrefixOk(image: Bytes, f: Files) {
    && (f.partial.Some? ==> f.partial.value <= image)
    && (f.final.Some? ==> f.final.value.contents <= image)
  }

  /** Past its look at the destination. */
  predicate Underway(st: Stage) { st.Asked? || st.Writing? || st.Complete? || st.Verified? }

  /** The files and the one request working on them. While it works there is no
      final file, and the server stands where the partial file ends. */
  ghost predicate Linked(matches: Matches, digest: string, f: Files, st: Stage, served: Option<nat>) {
    && (Underway(st) ==> f.final.None?)
    && (st.Writing? ==> served == Some(st.have))
    && (f.partial.Some? ==>
          && (st.Asked? ==> st.resume == |f.partial.value|)
          && (st.Writing? ==> st.have == |f.partial.value|)
          && (st.Complete? || st.Verified? ==> served == Some(|f.partial.value|))
          && (st.Verified? && digest != "" ==> matches(f.partial.value, digest)))
  }

  lemma MoveKeepsFiles(matches: Matches, digest: string, f: Files, st: Stage, served: Option<nat>, m: Move)
    requires Allows(st, m) && FinalOk(matches, f) && Linked(matches, digest, f, st, served)
    ensures var (f', st') := Moved(matches, digest, f, st, m);
            FinalOk(matches, f') && Linked(matches, digest, f', st', Served(served, m))
  {
  }

  lemma MoveKeepsPrefix(matches: Matches, digest: string, f: Files, st: Stage, served: Option<nat>, m: Move, image: Bytes)
    requires Allows(st, m) && PrefixOk(image, f) && Linked(matches, digest, f, st, served) && Honest(image, served, m)
    ensures PrefixOk(image, Moved(matches, digest, f, st, m).0)
  {
    if st.Writing? && f.partial.Some? {
      var p := f.partial.value;
      assert p == image[..st.have];
      if m.Chunk? { assert p + m.data == image[..st.have + |m.data|]; }
      if m.Break? { assert p + m.written == image[..st.have + |m.written|]; }
    }
  }

  // ---- all requests together ----

  datatype Request = Request(destination: string, digest: string, stage: Stage, served: Option<nat>)

  /** Files by destination, the requests, and who holds each download slot. */
  datatype State = State(files: map<string, Files>, requests: seq<Request>, slots: map<nat, nat>)

  const START := State(map[], [], map[])

  /** A daemon starting over the files an earlier one left behind. */
  ghost predicate Starting(s: State) {
    s.requests == [] && s.slots == map[] &&
    forall d :: d in s.files && s.files[d].final.Some? ==> s.files[d].final.value.expected == ""
  }

  /** The slot a destination hashes to. */
  type Slots = string -> nat

  function At(s: State, destination: string): Files {
    if destination in s.files then s.files[destination] else NO_FILES
  }

  /** RemoveFinal and RemovePartial are the image deletion handler's, which
      takes no slot. */
  datatype Action =
    | Arrive(destination: string, digest: string)
    | Do(r: nat, move: Move)
    | RemoveFinal(destination: string)
    | RemovePartial(destination: string)

  predicate Enabled(slot: Slots, s: State, a: Action) {
    match a
    case Do(r, m) =>
      r < |s.requests| && Allows(s.requests[r].stage, m) && (m.Acquire? ==> slot(s.requests[r].destination) !in s.slots)
    case _ => true
  }

  function Step(slot: Slots, matches: Matches, s: State, a: Action): State
    requires Enabled(slot, s, a)
  {
    match a
    case Arrive(destination, digest) => s.(requests := s.requests + [Request(destination, digest, Waiting, None)])
    case RemoveFinal(destination) => s.(files := s.files[destination := At(s, destination).(final := None)])
    case RemovePartial(destination) => s.(files := s.files[destination := Dropped(At(s, destination))])
    case Do(r, m) =>
      var q := s.requests[r];
      var (f, st) := Moved(matches, q.digest, At(s, q.destination), q.stage, m);
      State(s.files[q.destination := f], s.requests[r := q.(stage := st, served := Served(q.served, m))],
            if m.Acquire? then s.slots[slot(q.destination) := r]
            else if Active(q.stage) && !Active(st) then s.slots - {slot(q.destination)}
            else s.slots)
  }

  ghost predicate ValidRun(slot: Slots, matches: Matches, s: State, run: seq<Action>)
    decreases |run|
  {
    run == [] || (Enabled(slot, s, run[0]) && ValidRun(slot, matches, Step(slot, matches, s, run[0]), run[1..]))
  }

  ghost function Run(slot: Slots, matches: Matches, s: State, run: seq<Action>): State
    requires ValidRun(slot, matches, s, run)
    decreases |run|
  {
    if run == [] then s else Run(slot, matches, Step(slot, matches, s, run[0]), run[1..])
  }

  // ---- what every state keeps ----

  /** A slot is held by exactly the request working behind it. */
  ghost predicate SlotsOk(slot: Slots, s: State) {
    && (forall r :: 0 <= r < |s.requests| ==>
          (Active(s.requests[r].stage) <==>
             slot(s.requests[r].destination) in s.slots && s.slots[slot(s.requests[r].destination)] == r))
    && (forall k :: k in s.slots ==> s.slots[k] < |s.requests| && slot(s.requests[s.slots[k]].destination) == k)
  }

  ghost predicate RequestOk(matches: Matches, s: State, r: nat)
    requires r < |s.requests|
  {
    var q := s.requests[r];
    Linked(matches, q.digest, At(s, q.destination), q.stage, q.served)
  }

  /** The final file's digest is one some request for it asked for. */
  ghost predicate Claimed(s: State, destination: string) {
    At(s, destination).final.Some? ==>
      exists r :: 0 <= r < |s.requests| && s.requests[r].destination == destination &&
                  s.requests[r].digest == At(s, destination).final.value.expected
  }

  ghost predicate Inv(slot: Slots, matches: Matches, s: State) {
    && SlotsOk(slot, s)
    && (forall r :: 0 <= r < |s.requests| ==> RequestOk(matches, s, r))
    && (forall d :: FinalOk(matches, At(s, d)))
  }

  predicate WorksOn(s: State, r: nat, destination: string) {
    r < |s.requests| && s.requests[r].destination == destination && Active(s.requests[r].stage)
  }

  /** At most one request works on a destination's files at any moment. */
  lemma OneWriter(slot: Slots, s: State, r: nat, q: nat, destination: string)
    requires SlotsOk(slot, s)
    ensures WorksOn(s, r, destination) && WorksOn(s, q, destination) ==> r == q
  {
  }

  lemma StepKeepsSlots(slot: Slots, matches: Matches, s: State, a: Action)
    requires SlotsOk(slot, s) && Enabled(slot, s, a)
    ensures SlotsOk(slot, Step(slot, matches, s, a))
  {
    if a.Do? {
      var st, st' := s.requests[a.r].stage, Step(slot, matches, s, a).requests[a.r].stage;
      assert a.move.Acquire? ==> !Active(st) && Active(st');
      assert !a.move.Acquire? && Active(st') ==> Active(st);
    }
  }

  lemma DoKeepsRequests(slot: Slots, matches: Matches, s: State, a: Action, r: nat)
    requires Inv(slot, matches, s) && Enabled(slot, s, a) && a.Do? && r < |s.requests|
    ensures RequestOk(matches, Step(slot, matches, s, a), r)
  {
    var q, p := s.requests[a.r], s.requests[r];
    assert RequestOk(matches, s, a.r) && RequestOk(matches, s, r);
    MoveKeepsFiles(matches, q.digest, At(s, q.destination), q.stage, q.served, a.move);
    OneWriter(slot, s, r, a.r, q.destination);
  }

  lemma StepKeepsClaimed(slot: Slots, matches: Matches, s: State, a: Action, d: string)
    requires Enabled(slot, s, a) && Claimed(s, d)
    ensures Claimed(Step(slot, matches, s, a), d)
  {
    var s' := Step(slot, matches, s, a);
    if At(s', d).final.Some? {
      if At(s', d).final == At(s, d).final {
        var r :| 0 <= r < |s.requests| && s.requests[r].destination == d &&
                 s.requests[r].digest == At(s, d).final.value.expected;
        assert s'.requests[r].destination == d && s'.requests[r].digest == s.requests[r].digest;
      } else {
        assert s'.requests[a.r].destination == d;
      }
    }
  }

  lemma StepKeepsInv(slot: Slots, matches: Matches, s: State, a: Action)
    requires Inv(slot, matches, s) && Enabled(slot, s, a)
    ensures Inv(slot, matches, Step(slot, matches, s, a))
  {
    var s' := Step(slot, matches, s, a);
    StepKeepsSlots(slot, matches, s, a);
    forall r | 0 <= r < |s'.requests| ensures RequestOk(matches, s', r) {
      if a.Do? { DoKeepsRequests(slot, matches, s, a, r); } else if r < |s.requests| { assert RequestOk(matches, s, r); }
    }
    forall d ensures FinalOk(matches, At(s', d)) {
      assert FinalOk(matches, At(s, d));
      if a.Do? {
        var q := s.requests[a.r];
        assert RequestOk(matches, s, a.r);
        if q.destination == d { MoveKeepsFiles(matches, q.digest, At(s, d), q.stage, q.served, a.move); }
      }
    }
  }

  lemma {:induction false} RunKeepsInv(slot: Slots, matches: Matches, s: State, run: seq<Action>)
    requires Inv(slot, matches, s) && ValidRun(slot, matches, s, run)
    ensures Inv(slot, matches, Run(slot, matches, s, run))
    decreases |run|
  {
    if run != [] {
      StepKeepsInv(slot, matches, s, run[0]);
      RunKeepsInv(slot, matches, Step(slot, matches, s, run[0]), run[1..]);
    }
  }

  // ---- the theorems ----

  ghost predicate AllAskFor(s: State, d: string, digest: string) {
    forall r :: 0 <= r < |s.requests| && s.requests[r].destination == d ==> s.requests[r].digest == digest
  }

  lemma {:induction false} RunKeepsClaimed(slot: Slots, matches: Matches, s: State, run: seq<Action>, d: string)
    requires Claimed(s, d) && ValidRun(slot, matches, s, run)
    ensures Claimed(Run(slot, matches, s, run), d)
    decreases |run|
  {
    if run != [] {
      StepKeepsClaimed(slot, matches, s, run[0], d);
      RunKeepsClaimed(slot, matches, Step(slot, matches, s, run[0]), run[1..], d);
    }
  }

  /** Whatever servers send, a final file has the digest of the request that
      installed it; so where every request for a destination carries the same
      digest, the final file has that digest. */
  lemma FinalHasItsDigest(slot: Slots, matches: Matches, run: seq<Action>, d: string, digest: string)
    requires ValidRun(slot, matches, START, run) && digest != ""
    requires AllAskFor(Run(slot, matches, START, run), d, digest)
    ensures var f := At(Run(slot, matches, START, run), d);
            f.final.Some? ==> matches(f.final.value.contents, digest)
  {
    RunKeepsInv(slot, matches, START, run);
    RunKeepsClaimed(slot, matches, START, run, d);
    var s := Run(slot, matches, START, run);
    assert FinalOk(matches, At(s, d)) && Claimed(s, d);
  }

  /** The step by which a request reports success. */
  ghost predicate Succeeds(slot: Slots, matches: Matches, s: State, r: nat, m: Move) {
    Enabled(slot, s, Do(r, m)) && Step(slot, matches, s, Do(r, m)).requests[r].stage == Done(true)
  }

  /** After any run over any files left behind, a request that carries a digest
      and reports success leaves a file there; and that file has the digest
      exactly when the destination was empty, or held a file with it already. */
  lemma SuccessHasDigestIff(slot: Slots, matches: Matches, start: State, run: seq<Action>, r: nat, m: Move)
    requires Starting(start) && ValidRun(slot, matches, start, run)
    requires Succeeds(slot, matches, Run(slot, matches, start, run), r, m)
    requires Run(slot, matches, start, run).requests[r].digest != ""
    ensures var s := Run(slot, matches, start, run);
            var q := s.requests[r];
            var before, f := At(s, q.destination).final, At(Step(slot, matches, s, Do(r, m)), q.destination).final;
            && f.Some?
            && (matches(f.value.contents, q.digest) <==> before.None? || matches(before.value.contents, q.digest))
  {
    RunKeepsInv(slot, matches, start, run);
    var s := Run(slot, matches, start, run);
    assert RequestOk(matches, s, r);
  }

  /** So in every reachable state a destination has at most one writer. */
  lemma OneWriterEver(slot: Slots, matches: Matches, start: State, run: seq<Action>, r: nat, q: nat, d: string)
    requires Starting(start) && ValidRun(slot, matches, start, run)
    ensures var s := Run(slot, matches, start, run);
            WorksOn(s, r, d) && WorksOn(s, q, d) ==> r == q
  {
    RunKeepsInv(slot, matches, start, run);
    OneWriter(slot, Run(slot, matches, start, run), r, q, d);
  }

  /** The server of destination d serves one fixed object throughout the run,
      from whatever positions it announces. */
  ghost predicate HonestRun(slot: Slots, matches: Matches, s: State, run: seq<Action>, d: string, image: Bytes)
    requires ValidRun(slot, matches, s, run)
    decreases |run|
  {
    run == [] ||
    ((run[0].Do? && s.requests[run[0].r].destination == d ==> Honest(image, s.requests[run[0].r].served, run[0].move)) &&
     HonestRun(slot, matches, Step(slot, matches, s, run[0]), run[1..], d, image))
  }

  /** Over any sequence of attempts, answers, stalls, cancellations and
      deletions, what is on disk for an honestly served object is a prefix of it. */
  lemma {:induction false} PartialIsPrefix(slot: Slots, matches: Matches, s: State, run: seq<Action>, d: string, image: Bytes)
    requires Inv(slot, matches, s) && PrefixOk(image, At(s, d))
    requires ValidRun(slot, matches, s, run) && HonestRun(slot, matches, s, run, d, image)
    ensures PrefixOk(image, At(Run(slot, matches, s, run), d))
    decreases |run|
  {
    if run != [] {
      var a := run[0];
      StepKeepsInv(slot, matches, s, a);
      if a.Do? && s.requests[a.r].destination == d {
        var q := s.requests[a.r];
        assert RequestOk(matches, s, a.r);
        MoveKeepsPrefix(matches, q.digest, At(s, d), q.stage, q.served, a.move, image);
      }
      PartialIsPrefix(slot, matches, Step(slot, matches, s, a), run[1..], d, image);
    }
  }

  /** Against one fixed object, the file a request installs is the whole object
      exactly when the server stood at its end when the body ended. */
  lemma InstalledIsWholeIff(slot: Slots, matches: Matches, start: State, run: seq<Action>, r: nat, kept: bool, image: Bytes)
    requires Starting(start) && ValidRun(slot, matches, start, run)
    requires Succeeds(slot, matches, Run(slot, matches, start, run), r, Install(true, kept))
    requires var d := Run(slot, matches, start, run).requests[r].destination;
             PrefixOk(image, At(start, d)) && HonestRun(slot, matches, start, run, d, image)
    ensures var s := Run(slot, matches, start, run);
            var q := s.requests[r];
            var f := At(Step(slot, matches, s, Do(r, Install(true, kept))), q.destination).final;
            f.Some? && f.value.contents <= image && (f.value.contents == image <==> q.served == Some(|image|))
  {
    var s := Run(slot, matches, start, run);
    var q := s.requests[r];
    RunKeepsInv(slot, matches, start, run);
    assert RequestOk(matches, s, r);
    PartialIsPrefix(slot, matches, start, run, q.destination, image);
    var p := At(s, q.destination).partial.value;
    assert p <= image && (|p| == |image| ==> p == image);
  }

  // ---- a file that was already there ----

  ghost predicate Leads(slot: Slots, matches: Matches, start: State, run: seq<Action>, end: State) {
    ValidRun(slot, matches, start, run) && Run(slot, matches, start, run) == end
  }

  lemma {:induction false} ExtendFrom(slot: Slots, matches: Matches, s: State, run: seq<Action>, end: State, a: Action, next: State)
    requires Leads(slot, matches, s, run, end) && Enabled(slot, end, a) && Step(slot, matches, end, a) == next
    ensures Leads(slot, matches, s, run + [a], next)
    decreases |run|
  {
    if run == [] {
      assert [a][1..] == [];
      assert run + [a] == [a];
    } else {
      assert (run + [a])[1..] == run[1..] + [a];
      ExtendFrom(slot, matches, Step(slot, matches, s, run[0]), run[1..], end, a, next);
    }
  }

  lemma {:induction false} HonestFrom(slot: Slots, matches: Matches, s: State, run: seq<Action>, end: State, a: Action, d: string, image: Bytes)
    requires Leads(slot, matches, s, run, end)
    requires ValidRun(slot, matches, s, run + [a])
    requires HonestRun(slot, matches, s, run, d, image) && Enabled(slot, end, a)
    requires a.Do? && end.requests[a.r].destination == d ==> Honest(image, end.requests[a.r].served, a.move)
    ensures HonestRun(slot, matches, s, run + [a], d, image)
    decreases |run|
  {
    if run == [] {
      assert [a][1..] == [];
      assert run + [a] == [a];
    } else {
      assert (run + [a])[1..] == run[1..] + [a];
      HonestFrom(slot, matches, Step(slot, matches, s, run[0]), run[1..], end, a, d, image);
    }
  }

  /** One destination "d" and one request for it. */
  function Single(slot: Slots, f: Files, stage: Stage, served: Option<nat>): State {
    State(map["d" := f], [Request("d", "", stage, served)], if Active(stage) then map[slot("d") := 0] else map[])
  }

  /** An honestly served run to a state of the one request. */
  ghost predicate Fetches(slot: Slots, matches: Matches, start: State, run: seq<Action>, image: Bytes, f: Files, st: Stage, served: Option<nat>) {
    Leads(slot, matches, start, run, Single(slot, f, st, served)) && HonestRun(slot, matches, start, run, "d", image)
  }

  /** A request arrives over what is there and gets its slot. */
  lemma {:induction false} Arrived(slot: Slots, matches: Matches, f: Files, image: Bytes) returns (start: State, run: seq<Action>)
    ensures start == State(map["d" := f], [], map[])
    ensures Fetches(slot, matches, start, run, image, f, Holding, None)
  {
    start := State(map["d" := f], [], map[]);
    var a, b := Arrive("d", ""), Do(0, Acquire);
    ExtendFrom(slot, matches, start, [], start, a, Single(slot, f, Waiting, None));
    HonestFrom(slot, matches, start, [], start, a, "d", image);
    assert [] + [a] == [a];
    ExtendFrom(slot, matches, start, [a], Single(slot, f, Waiting, None), b, Single(slot, f, Holding, None));
    HonestFrom(slot, matches, start, [a], Single(slot, f, Waiting, None), b, "d", image);
    run := [a] + [b];
  }

  /** A move of the one request. */
  lemma {:induction false} OneMove(slot: Slots, matches: Matches, start: State, run: seq<Action>, image: Bytes,
                                   f: Files, st: Stage, served: Option<nat>, m: Move) returns (longer: seq<Action>)
    requires Fetches(slot, matches, start, run, image, f, st, served)
    requires Active(st) && Allows(st, m) && Honest(image, served, m)
    ensures var (f', st') := Moved(matches, "", f, st, m);
            Fetches(slot, matches, start, longer, image, f', st', Served(served, m))
  {
    var (f', st') := Moved(matches, "", f, st, m);
    var here, next := Single(slot, f, st, served), Single(slot, f', st', Served(served, m));
    assert Step(slot, matches, here, Do(0, m)) == next;
    ExtendFrom(slot, matches, start, run, here, Do(0, m), next);
    HonestFrom(slot, matches, start, run, here, Do(0, m), "d", image);
    longer := run + [Do(0, m)];
  }

  /** From the first answer to the end: the body is put behind what was there. */
  lemma {:induction false} Fetched(slot: Slots, matches: Matches, start: State, before: seq<Action>, image: Bytes, had: Bytes, data: Bytes)
    returns (run: seq<Action>)
    requires Fetches(slot, matches, start, before, image, Files(Some(had), None), Writing(|had|), Some(|had|))
    requires Excerpt(image, |had|, data)
    ensures Fetches(slot, matches, start, run, image, Files(None, Some(Final(had + data, ""))), Done(true), Some(|had + data|))
  {
    var f := Files(Some(had + data), None);
    run := OneMove(slot, matches, start, before, image, Files(Some(had), None), Writing(|had|), Some(|had|), Chunk(data));
    run := OneMove(slot, matches, start, run, image, f, Writing(|had + data|), Some(|had + data|), Eof);
    run := OneMove(slot, matches, start, run, image, f, Verified, Some(|had + data|), Install(true, false));
  }

  /** A request without a digest fetches whatever the server sends. */
  lemma {:induction false} UncheckedDownload(slot: Slots, matches: Matches, contents: Bytes)
    returns (start: State, run: seq<Action>)
    ensures start == State(map["d" := NO_FILES], [], map[])
    ensures Leads(slot, matches, start, run, Single(slot, Files(None, Some(Final(contents, ""))), Done(true), Some(|contents|)))
  {
    start, run := Arrived(slot, matches, NO_FILES, contents);
    run := OneMove(slot, matches, start, run, contents, NO_FILES, Holding, None, Look);
    run := OneMove(slot, matches, start, run, contents, NO_FILES, Asked(0), None, Answer(200, "", true));
    run := Fetched(slot, matches, start, run, contents, "", contents);
    assert "" + contents == contents;
  }

  /** A request with a digest that finds the file already there reports success
      without checking it: one earlier request without a digest is enough for
      the file to be anything, whatever digest is asked for later. */
  lemma {:induction false} ExistingFileIsNotChecked(slot: Slots, matches: Matches, contents: Bytes, digest: string)
    returns (start: State, run: seq<Action>)
    ensures Starting(start) && ValidRun(slot, matches, start, run)
    ensures var s := Run(slot, matches, start, run);
            |s.requests| == 2 && s.requests[1] == Request("d", digest, Done(true), None) &&
            At(s, "d").final == Some(Final(contents, ""))
  {
    start, run := UncheckedDownload(slot, matches, contents);
    var s := Single(slot, Files(None, Some(Final(contents, ""))), Done(true), Some(|contents|));
    var a := Arrive("d", digest);
    ExtendFrom(slot, matches, start, run, s, a, Step(slot, matches, s, a));
    run, s := run + [a], Step(slot, matches, s, a);
    a := Do(1, Acquire);
    ExtendFrom(slot, matches, start, run, s, a, Step(slot, matches, s, a));
    run, s := run + [a], Step(slot, matches, s, a);
    a := Do(1, Look);
    ExtendFrom(slot, matches, start, run, s, a, Step(slot, matches, s, a));
    run, s := run + [a], Step(slot, matches, s, a);
  }

  /** A 206 may answer a resume with a shorter range than was asked for. Where
      the range ends is not looked at: with no digest, an honestly served but
      short file is installed and reported as a success. */
  lemma {:induction false} ShortRangeIsInstalled(slot: Slots, matches: Matches, image: Bytes, had: nat, got: nat, header: string)
    returns (start: State, run: seq<Action>)
    requires 0 < had <= had + got < |image| && ContentRangeStart(header) == Some(had)
    ensures Starting(start) && PrefixOk(image, At(start, "d"))
    ensures Fetches(slot, matches, start, run, image, Files(None, Some(Final(image[..had + got], ""))), Done(true), Some(had + got))
  {
    var p, data := image[..had], image[had..had + got];
    var f := Files(Some(p), None);
    start, run := Arrived(slot, matches, f, image);
    run := OneMove(slot, matches, start, run, image, f, Holding, None, Look);
    run := OneMove(slot, matches, start, run, image, f, Asked(had), None, Answer(206, header, true));
    run := Fetched(slot, matches, start, run, image, p, data);
    assert p + data == image[..had + got];
  }

  // ---- one request alone ----

  ghost predicate CanDo(matches: Matches, digest: string, f: Files, moves: seq<Move>)
    decreases |moves|, 0
  {
    moves == [] ||
    (CanDo(matches, digest, f, moves[..|moves| - 1]) &&
     Allows(After(matches, digest, f, moves[..|moves| - 1]).1, moves[|moves| - 1]))
  }

  /** Files and stage after a request that holds its slot has made these moves. */
  ghost function After(matches: Matches, digest: string, f: Files, moves: seq<Move>): (Files, Stage)
    requires CanDo(matches, digest, f, moves)
    decreases |moves|, 1
  {
    if moves == [] then (f, Holding)
    else
      var (f1, st) := After(matches, digest, f, moves[..|moves| - 1]);
      Moved(matches, digest, f1, st, moves[|moves| - 1])
  }

  lemma OneMore(matches: Matches, digest: string, f: Files, moves: seq<Move>, m: Move)
    requires CanDo(matches, digest, f, moves) && Allows(After(matches, digest, f, moves).1, m)
    ensures CanDo(matches, digest, f, moves + [m])
    ensures var (f1, st) := After(matches, digest, f, moves);
            After(matches, digest, f, moves + [m]) == Moved(matches, digest, f1, st, m)
  {
    assert (moves + [m])[..|moves|] == moves;
  }

  /** How the reading of the body ends. */
  datatype Ending = AtEof | Stalled | ReadFails | WriteFails(written: Bytes)

  /** What the world does to one download: the answer, the chunks read, how
      reading ends, and which file operations work. */
  datatype Circumstances = Circumstances(
    answer: Option<(int, string)>, opens: bool, chunks: seq<Bytes>, ending: Ending,
    canceled: bool, readable: bool, renameWorks: bool)

  function Joined(chunks: seq<Bytes>): Bytes {
    if chunks == [] then "" else Joined(chunks[..|chunks| - 1]) + chunks[|chunks| - 1]
  }

  lemma {:induction false} JoinedStep(before: Bytes, chunks: seq<Bytes>, i: nat)
    requires i < |chunks|
    ensures before + Joined(chunks[..i]) + chunks[i] == before + Joined(chunks[..i + 1])
    ensures |Joined(chunks[..i + 1])| == |Joined(chunks[..i])| + |chunks[i]|
  {
    assert chunks[..i + 1][..i] == chunks[..i];
  }

  /** How much of the object is on disk already. */
  function SizeOf(partial: Option<Bytes>): nat { if partial.Some? then |partial.value| else 0 }

  /** An answer the download goes on with: the whole object, or what follows
      exactly the partial it asked to continue. */
  predicate Usable(answer: Option<(int, string)>, size: nat) {
    answer.Some? && (answer.value.0 == 200 ||
                     (answer.value.0 == 206 && size > 0 && ContentRangeStart(answer.value.1) == Some(size)))
  }

  /** An answer that throws the partial away: its range was refused or mismatched. */
  predicate Discards(answer: Option<(int, string)>, size: nat) {
    answer.Some? && size > 0 &&
    (answer.value.0 == 416 || (answer.value.0 == 206 && ContentRangeStart(answer.value.1) != Some(size)))
  }

  /** What the body is put behind: nothing for a 200, the partial for a 206. */
  function Resumed(answer: Option<(int, string)>, partial: Option<Bytes>): Bytes {
    if answer.Some? && answer.value.0 == 206 && partial.Some? then partial.value else ""
  }

  /** The contents when the body has been read to its end. */
  function Body(c: Circumstances, partial: Option<Bytes>): Bytes { Resumed(c.answer, partial) + Joined(c.chunks) }

  predicate Checked(matches: Matches, digest: string, c: Circumstances, body: Bytes) {
    digest == "" || (c.readable && matches(body, digest))
  }

  /** What a download that got a usable answer and opened its file leaves of the
      partial when it fails: a stall or a cancellation keeps what has arrived, a
      body that was wrong or could not be written is thrown away. */
  function LeftBehind(matches: Matches, digest: string, c: Circumstances, body: Bytes): Option<Bytes> {
    if c.ending == Stalled then Some(body)
    else if c.ending != AtEof then
      if c.canceled then Some(body + if c.ending.WriteFails? then c.ending.written else "") else None
    else if Checked(matches, digest, c, body) && c.canceled then Some(body)
    else None
  }

  /** The files of one destination. */
  class Disk {
    var partial: Option<Bytes>
    var final: Option<Final>

    /** downloadImageWithProgress, with its slot held and nobody interfering, is
        a sequence of the moves above ending in its answer. It succeeds exactly
        if a file was there, or the answer was usable, the file opened, the body
        came to its end, it had the digest if one was asked for, and the rename
        worked; the file is then what was resumed and the chunks. */
    method Download(matches: Matches, digest: string, c: Circumstances) returns (ok: bool, ghost moves: seq<Move>)
      modifies this
      ensures CanDo(matches, digest, old(Files(partial, final)), moves)
      ensures After(matches, digest, old(Files(partial, final)), moves) == (Files(partial, final), Done(ok))
      ensures old(final).Some? ==> ok && partial == old(partial) && final == old(final)
      ensures old(final).None? && !(Usable(c.answer, SizeOf(old(partial))) && c.opens) ==>
                !ok && final.None? &&
                partial == if Discards(c.answer, SizeOf(old(partial))) then None else old(partial)
      ensures old(final).None? && Usable(c.answer, SizeOf(old(partial))) && c.opens ==>
                var body := Body(c, old(partial));
                && (ok <==> c.ending == AtEof && Checked(matches, digest, c, body) && c.renameWorks)
                && (ok ==> final == Some(Final(body, digest)) && partial == None)
                && (!ok ==> final == None && partial == LeftBehind(matches, digest, c, body))
    {
      ghost var f0 := Files(partial, final);
      moves := [];
      OneMore(matches, digest, f0, moves, Look);
      moves := moves + [Look];
      if final.Some? {
        return true, moves;
      }
      var resumeFrom := 0;
      if partial.Some? {
        resumeFrom := |partial.value|;
      }
      if c.answer.None? {
        OneMore(matches, digest, f0, moves, NoAnswer);
        moves := moves + [NoAnswer];
        return false, moves;
      }
      var (status, header) := c.answer.value;
      ghost var answer := Answer(status, header, c.opens);
      OneMore(matches, digest, f0, moves, answer);
      moves := moves + [answer];
      if status == 416 && resumeFrom > 0 {
        partial := None;
        return false, moves;
      }
      if status != 200 && status != 206 {
        return false, moves;
      }
      if resumeFrom == 0 && status == 206 {
        return false, moves;
      }
      if resumeFrom > 0 && status != 206 {
        resumeFrom := 0;
      }
      if resumeFrom > 0 {
        var start := ContentRangeStart(header);
        if start.None? || start.value != resumeFrom {
          partial := None;
          return false, moves;
        }
      }
      if !c.opens || (resumeFrom > 0 && partial.None?) {
        return false, moves;
      }
      if resumeFrom == 0 {
        partial := Some("");
      }
      ok, moves := Receive(matches, digest, c, f0, moves, resumeFrom);
    }

    /** The read loop, the check and the rename, behind what is on disk. */
    method Receive(matches: Matches, digest: string, c: Circumstances, ghost f0: Files, ghost before: seq<Move>, resumeFrom: nat)
      returns (ok: bool, ghost moves: seq<Move>)
      requires CanDo(matches, digest, f0, before) && partial.Some? && final.None?
      requires After(matches, digest, f0, before) == (Files(partial, final), Writing(resumeFrom))
      modifies this
      ensures CanDo(matches, digest, f0, moves) && After(matches, digest, f0, moves) == (Files(partial, final), Done(ok))
      ensures var body := old(partial).value + Joined(c.chunks);
              && (ok <==> c.ending == AtEof && Checked(matches, digest, c, body) && c.renameWorks)
              && (ok ==> final == Some(Final(body, digest)) && partial == None)
              && (!ok ==> final == None && partial == LeftBehind(matches, digest, c, body))
    {
      moves := ReadBody(matches, digest, c, f0, before, resumeFrom);
      if c.ending != AtEof {
        var written := if c.ending.WriteFails? then c.ending.written else "";
        var kept := c.canceled || c.ending.Stalled?;
        OneMore(matches, digest, f0, moves, Break(written, kept));
        moves := moves + [Break(written, kept)];
        assert c.ending.Stalled? ==> partial.value + written == partial.value;
        partial := if kept then Some(partial.value + written) else None;
        return false, moves;
      }
      ok, moves := Finish(matches, digest, c, f0, moves, resumeFrom + |Joined(c.chunks)|);
    }

    /** The body is complete: check it and put it in place. */
    method Finish(matches: Matches, digest: string, c: Circumstances, ghost f0: Files, ghost before: seq<Move>, ghost have: nat)
      returns (ok: bool, ghost moves: seq<Move>)
      requires CanDo(matches, digest, f0, before) && partial.Some? && final.None?
      requires After(matches, digest, f0, before) == (Files(partial, final), Writing(have))
      modifies this
      ensures CanDo(matches, digest, f0, moves) && After(matches, digest, f0, moves) == (Files(partial, final), Done(ok))
      ensures ok <==> Checked(matches, digest, c, old(partial).value) && c.renameWorks
      ensures ok ==> final == Some(Final(old(partial).value, digest)) && partial == None
      ensures !ok ==> final == None
      ensures !ok ==> partial == if Checked(matches, digest, c, old(partial).value) && c.canceled then old(partial) else None
    {
      moves := before;
      OneMore(matches, digest, f0, moves, Eof);
      moves := moves + [Eof];
      if digest != "" {
        OneMore(matches, digest, f0, moves, Verify(c.readable));
        moves := moves + [Verify(c.readable)];
        if !c.readable || !matches(partial.value, digest) {
          partial := None;
          return false, moves;
        }
      }
      OneMore(matches, digest, f0, moves, Install(c.renameWorks, c.canceled));
      moves := moves + [Install(c.renameWorks, c.canceled)];
      if !c.renameWorks {
        if !c.canceled {
          partial := None;
        }
        return false, moves;
      }
      final := Some(Final(partial.value, digest));
      partial := None;
      return true, moves;
    }

    /** Chunk after chunk goes to the end of the partial. */
    method ReadBody(matches: Matches, digest: string, c: Circumstances, ghost f0: Files, ghost before: seq<Move>, resumeFrom: nat)
      returns (ghost moves: seq<Move>)
      requires CanDo(matches, digest, f0, before) && partial.Some?
      requires After(matches, digest, f0, before) == (Files(partial, final), Writing(resumeFrom))
      modifies this`partial
      ensures partial == Some(old(partial).value + Joined(c.chunks))
      ensures CanDo(matches, digest, f0, moves)
      ensures After(matches, digest, f0, moves) == (Files(partial, final), Writing(resumeFrom + |Joined(c.chunks)|))
    {
      moves := before;
      var downloaded: nat := resumeFrom;
      assert partial.value + "" == partial.value;
      for i := 0 to |c.chunks|
        invariant CanDo(matches, digest, f0, moves)
        invariant partial == Some(old(partial).value + Joined(c.chunks[..i])) && downloaded == resumeFrom + |Joined(c.chunks[..i])|
        invariant After(matches, digest, f0, moves) == (Files(partial, final), Writing(downloaded))
      {
        OneMore(matches, digest, f0, moves, Chunk(c.chunks[i]));
        moves := moves + [Chunk(c.chunks[i])];
        JoinedStep(old(partial).value, c.chunks, i);
        partial := Some(partial.value + c.chunks[i]);
        downloaded := downloaded + |c.chunks[i]|;
      }
      assert c.chunks[..|c.chunks|] == c.chunks;
    }
  }
}
