/** The terminal session actor: a status that only moves forward, a buffer that
    only grows, and a window of recent output a subscriber can resume from. */
module Sessions {
  import opened Options
  import opened Strings
  import opened TerminalCursor

  datatype Status = Idle | Starting | Attached | Running | Exited | Failed

  datatype ProcessExit = ProcessExit(code: Option<int>, signal: string)

  datatype DeltaPayload = DeltaPayload(
    sessionId: string, subscriberId: string, seqNo: nat, data: Bytes, cursor: Cursor,
    terminalStatus: Status, processExit: Option<ProcessExit>)

  datatype SnapshotPayload = SnapshotPayload(
    sessionId: string, subscriberId: string, seqNo: nat, rows: uint16, cols: uint16, cursor: Cursor,
    terminalStatus: Status, processExit: Option<ProcessExit>, buffer: Bytes)

  datatype StatusPayload = StatusPayload(
    sessionId: string, subscriberId: string, seqNo: nat, terminalStatus: Status, processExit: Option<ProcessExit>)

  datatype AttachEnvelope = AttachEnvelope(snapshot: SnapshotPayload, deltas: seq<DeltaPayload>, status: StatusPayload)

  datatype Attached = Envelope(value: AttachEnvelope) | SubscriberRequired

  datatype Written = Accepted | NotWritable | ProcessRefused

  const MAX_RETAINED_DELTAS: nat := 256

  function Rank(s: Status): nat {
    match s
    case Idle => 0 case Starting => 1 case Attached => 2 case Running => 3 case Exited => 4 case Failed => 4
  }

  predicate Frozen(s: Status) { s.Exited? || s.Failed? }

  // ---- outputs, and what is derived from them ----

  function Concat(chunks: seq<Bytes>): Bytes
    decreases |chunks|
  {
    if chunks == [] then [] else Concat(chunks[..|chunks| - 1]) + chunks[|chunks| - 1]
  }

  function Data(deltas: seq<DeltaPayload>): seq<Bytes> { seq(|deltas|, i requires 0 <= i < |deltas| => deltas[i].data) }

  /** The delta of the n-th output, counted from one. */
  ghost function DeltaOf(sessionId: string, outputs: seq<Bytes>, n: nat): DeltaPayload
    requires 1 <= n <= |outputs|
  {
    DeltaPayload(sessionId, "", n, outputs[n - 1], CursorOf(Concat(outputs[..n])), Running, None)
  }

  lemma {:induction false} ConcatConcat(a: seq<Bytes>, b: seq<Bytes>)
    ensures Concat(a + b) == Concat(a) + Concat(b)
    decreases |b|
  {
    if b == [] {
      assert a + b == a;
    } else {
      assert (a + b)[..|a + b| - 1] == a + b[..|b| - 1];
      ConcatConcat(a, b[..|b| - 1]);
    }
  }

  /** What the session has been through. */
  datatype Life = Life(status: Status, outputs: seq<Bytes>, exit: Option<ProcessExit>)

  ghost predicate Later(a: Life, b: Life) {
    && Rank(a.status) <= Rank(b.status) && a.outputs <= b.outputs
    && (Frozen(a.status) ==> b == a)
  }

  lemma LaterIsTransitive(a: Life, b: Life, c: Life)
    requires Later(a, b) && Later(b, c)
    ensures Later(a, c)
  {
  }

  ghost predicate Retains(sessionId: string, outputs: seq<Bytes>, deltas: seq<DeltaPayload>) {
    && |deltas| == (if |outputs| < MAX_RETAINED_DELTAS then |outputs| else MAX_RETAINED_DELTAS)
    && forall i | 0 <= i < |deltas| :: deltas[i] == DeltaOf(sessionId, outputs, |outputs| - |deltas| + i + 1)
  }

  function TrimDeltas(deltas: seq<DeltaPayload>): seq<DeltaPayload> {
    if |deltas| > MAX_RETAINED_DELTAS then deltas[|deltas| - MAX_RETAINED_DELTAS..] else deltas
  }

  lemma ConcatOneMore(chunks: seq<Bytes>, data: Bytes)
    ensures Concat(chunks + [data]) == Concat(chunks) + data && (chunks + [data])[..|chunks| + 1] == chunks + [data]
  {
    assert (chunks + [data])[..|chunks|] == chunks;
  }

  lemma LatestDelta(sessionId: string, outputs: seq<Bytes>, data: Bytes)
    ensures DeltaOf(sessionId, outputs + [data], |outputs| + 1) ==
            DeltaPayload(sessionId, "", |outputs| + 1, data, CursorOf(Concat(outputs) + data), Running, None)
  {
    hide CursorOf;
    ConcatOneMore(outputs, data);
  }

  lemma DeltaStands(sessionId: string, outputs: seq<Bytes>, longer: seq<Bytes>, n: nat)
    requires outputs <= longer && 1 <= n <= |outputs|
    ensures DeltaOf(sessionId, longer, n) == DeltaOf(sessionId, outputs, n)
  {
    hide Concat, CursorOf;
    assert longer[..n] == outputs[..n];
  }

  lemma RetainsOneMore(sessionId: string, outputs: seq<Bytes>, longer: seq<Bytes>, deltas: seq<DeltaPayload>,
      delta: DeltaPayload)
    requires Retains(sessionId, outputs, deltas) && outputs <= longer && |longer| == |outputs| + 1
    requires delta == DeltaOf(sessionId, longer, |longer|)
    ensures Retains(sessionId, longer, TrimDeltas(deltas + [delta]))
  {
    hide DeltaOf;
    var kept, all := TrimDeltas(deltas + [delta]), deltas + [delta];
    var dropped := |all| - |kept|;
    forall i | 0 <= i < |kept| ensures kept[i] == DeltaOf(sessionId, longer, |longer| - |kept| + i + 1) {
      assert kept[i] == all[dropped + i];
      if dropped + i < |deltas| { DeltaStands(sessionId, outputs, longer, |longer| - |kept| + i + 1); }
    }
  }

  /** What a client had, followed by the outputs since, is everything. */
  lemma ResumeCompletesBuffer(outputs: seq<Bytes>, after: nat, got: seq<DeltaPayload>)
    requires after <= |outputs| && |got| == |outputs| - after && forall i | 0 <= i < |got| ::
             got[i].data == outputs[after + i]
    ensures Concat(outputs[..after]) + Concat(Data(got)) == Concat(outputs)
  {
    assert Data(got) == outputs[after..];
    assert outputs == outputs[..after] + outputs[after..];
    ConcatConcat(outputs[..after], outputs[after..]);
  }

  /** What can happen to an actor, in whatever order its callers, its reader and its
      process bring it about. */
  datatype Happening =
    | Attaching(subscriberId: string, afterSeq: nat)
    | Typing(data: Bytes)
    | Resizing(cols: uint16, rows: uint16)
    | Printing(data: Bytes)
    | Exiting(exit: ProcessExit)
    | Failing(message: string)
    | Closing

  /** The outputs that count: those before the first end. */
  function Printed(happenings: seq<Happening>): seq<Bytes> {
    if happenings == [] then []
    else
      match happenings[0]
      case Printing(data) => [data] + Printed(happenings[1..])
      case Exiting(_) => []
      case Failing(_) => []
      case Closing => []
      case _ => Printed(happenings[1..])
  }

  /** What is still to be printed. */
  function Ahead(frozen: bool, happenings: seq<Happening>): seq<Bytes> {
    if frozen then [] else Printed(happenings)
  }

  predicate Ends(h: Happening) { h.Exiting? || h.Failing? || h.Closing? }

  function Adds(frozen: bool, h: Happening): seq<Bytes> { if h.Printing? && !frozen then [h.data] else [] }

  /** One happening moves what it prints from ahead to behind. */
  lemma OneBehind(outputs: seq<Bytes>, frozen: bool, happenings: seq<Happening>, k: nat)
    requires k < |happenings|
    ensures outputs + Adds(frozen, happenings[k]) + Ahead(frozen || Ends(happenings[k]), happenings[k + 1..]) ==
            outputs + Ahead(frozen, happenings[k..])
  {
    assert happenings[k..][0] == happenings[k] && happenings[k..][1..] == happenings[k + 1..];
    var rest := Ahead(frozen || Ends(happenings[k]), happenings[k + 1..]);
    assert Adds(frozen, happenings[k]) + rest == Ahead(frozen, happenings[k..]);
    hide Ahead, Adds, Printed;
    assert outputs + Adds(frozen, happenings[k]) + rest == outputs + (Adds(frozen, happenings[k]) + rest);
  }

  class Actor {
    const sessionId: string
    var status: Status
    var seqNo: nat
    var buffer: Bytes
    var cursor: Cursor
    var rows: uint16
    var cols: uint16
    var subscribers: map<string, nat>
    var deltas: seq<DeltaPayload>
    var processExit: Option<ProcessExit>
    /** Every chunk accepted from the process. */
    ghost var outputs: seq<Bytes>

    ghost function View(): Life reads this { Life(status, outputs, processExit) }

    ghost predicate Valid() reads this {
      && buffer == Concat(outputs) && seqNo == |outputs| && cursor == CursorOf(buffer)
      && Retains(sessionId, outputs, deltas)
      && (processExit.Some? <==> Frozen(status))
    }

    constructor (sessionId: string, cols: uint16, rows: uint16)
      ensures Valid() && View() == Life(Starting, [], None) && subscribers == map[]
      ensures this.sessionId == sessionId && this.cols == cols && this.rows == rows
    {
      this.sessionId, this.cols, this.rows := sessionId, cols, rows;
      status, seqNo, buffer, cursor := Idle, 0, [], Cursor(0, 0);
      subscribers, deltas, processExit, outputs := map[], [], None, [];
      new;
      Transition(Starting);
    }

    method Transition(next: Status)
      modifies this`status
      ensures status == if Frozen(old(status)) then old(status) else next
    {
      if Frozen(status) { return; }
      status := next;
    }

    /** From any cursor still in the window, what the client already has followed by
        what it is handed is the whole buffer; otherwise there is a visible gap. */
    method Attach(subscriberId: string, afterSeq: nat) returns (r: Attached)
      requires Valid()
      modifies this
      ensures Valid() && Later(old(View()), View()) && outputs == old(outputs) && processExit == old(processExit)
      ensures rows == old(rows) && cols == old(cols)
      ensures r.SubscriberRequired? <==> forall c | c in subscriberId :: c in BLANKS
      ensures r.SubscriberRequired? ==> View() == old(View()) && subscribers == old(subscribers)
      ensures r.Envelope? ==>
                && status == (if old(status).Idle? || old(status).Starting? then Attached else old(status))
                && subscribers == old(subscribers)[subscriberId := seqNo]
                && r.value.snapshot ==
                    SnapshotPayload(sessionId, subscriberId, |outputs|, rows, cols, CursorOf(Concat(outputs)), status,
                        processExit, Concat(outputs))
                && r.value.status == StatusPayload(sessionId, subscriberId, |outputs|, status, processExit)
      ensures r.Envelope? ==>
                var window, got := |outputs| - |deltas|, r.value.deltas;
                && |got| <= |deltas| <= |outputs|
                && (forall i | 0 <= i < |got| ::
                    got[i] == DeltaOf(sessionId, outputs, |outputs| - |got| + i + 1).(subscriberId := subscriberId))
                && (window <= afterSeq <= |outputs| ==>
                      |got| == |outputs| - afterSeq &&
                      Concat(outputs[..afterSeq]) + Concat(Data(got)) == r.value.snapshot.buffer)
                && (afterSeq < window <==> got != [] && got[0].seqNo > afterSeq + 1)
                && (afterSeq >= |outputs| <==> got == [])
    {
      hide Concat, CursorOf, Blank;
      BlankIff(subscriberId);
      if Blank(subscriberId) { return SubscriberRequired; }
      if status.Idle? || status.Starting? { Transition(Status.Attached); }
      var got := CollectDeltas(subscriberId, afterSeq);
      subscribers := subscribers[subscriberId := seqNo];
      if |outputs| - |deltas| <= afterSeq <= |outputs| { ResumeCompletesBuffer(outputs, afterSeq, got); }
      return Envelope(AttachEnvelope(
        SnapshotPayload(sessionId, subscriberId, seqNo, rows, cols, cursor, status, processExit, buffer),
        got,
        StatusPayload(sessionId, subscriberId, seqNo, status, processExit)));
    }

    method CollectDeltas(subscriberId: string, afterSeq: nat) returns (out: seq<DeltaPayload>)
      requires Valid()
      ensures |deltas| == if |outputs| < 256 then |outputs| else 256
      ensures var window := |outputs| - |deltas|;
              && |out| == (if afterSeq < window then |deltas| else if afterSeq <= |outputs| then |outputs| - afterSeq
                  else 0)
              && forall i | 0 <= i < |out| ::
                  out[i] == DeltaOf(sessionId, outputs, |outputs| - |out| + i + 1).(subscriberId := subscriberId)
    {
      hide Concat, CursorOf;
      out := [];
      ghost var window := |outputs| - |deltas|;
      for k := 0 to |deltas|
        invariant |out| == if afterSeq < window then k else if afterSeq < window + k then window + k - afterSeq else 0
        invariant forall i | 0 <= i < |out| ::
                  out[i] == DeltaOf(sessionId, outputs, window + k - |out| + i + 1).(subscriberId := subscriberId)
      {
        if deltas[k].seqNo > afterSeq { out := out + [deltas[k].(subscriberId := subscriberId)]; }
      }
    }

    method WriteInput(data: Bytes) returns (r: Written)
      requires Valid()
      modifies this`status
      ensures Valid() && Later(old(View()), View()) && outputs == old(outputs)
      ensures r.NotWritable? <==> data != [] && (old(status).Exited? || old(status).Failed?)
      ensures status == if data != [] && (old(status).Starting? || old(status).Attached?) then Running else old(status)
    {
      if data == [] { return Accepted; }
      if Frozen(status) { return NotWritable; }
      if status.Starting? || status.Attached? { Transition(Running); }
      var delivered: bool := *;
      return if delivered then Accepted else ProcessRefused;
    }

    method Resize(cols: uint16, rows: uint16)
      requires Valid()
      modifies this`cols, this`rows
      ensures Valid() && View() == old(View()) && this.cols == cols && this.rows == rows
    {
      this.cols, this.rows := cols, rows;
    }

    /** A chunk read from the process; after the exit it is dropped. */
    method HandleOutput(data: Bytes)
      requires Valid()
      modifies this
      ensures Valid() && Later(old(View()), View()) && subscribers == old(subscribers)
      ensures rows == old(rows) && cols == old(cols)
      ensures View() == if old(status).Exited? || old(status).Failed? then old(View())
              else Life(Running, old(outputs) + [data], None)
    {
      hide CursorOf, AdvanceCursor, Retains, Concat, DeltaOf;
      if Frozen(status) { return; }
      if !status.Running? { Transition(Running); }
      CursorFollowsBuffer(buffer, data);
      ghost var longer := outputs + [data];
      ConcatOneMore(outputs, data);
      seqNo := seqNo + 1;
      buffer := buffer + data;
      cursor := AdvanceCursor(cursor, data);
      var delta := DeltaPayload(sessionId, "", seqNo, data, cursor, status, processExit);
      LatestDelta(sessionId, outputs, data);
      RetainsOneMore(sessionId, outputs, longer, deltas, delta);
      deltas := deltas + [delta];
      if |deltas| > MAX_RETAINED_DELTAS { deltas := deltas[|deltas| - MAX_RETAINED_DELTAS..]; }
      outputs := longer;
    }

    method HandleExit(exit: ProcessExit)
      requires Valid()
      modifies this`status, this`processExit
      ensures Valid() && Later(old(View()), View())
      ensures View() == if old(status).Exited? || old(status).Failed? then old(View())
              else Life(Exited, outputs, Some(exit))
    {
      if Frozen(status) { return; }
      processExit := Some(exit);
      Transition(Exited);
    }

    method HandleError(message: string)
      requires Valid()
      modifies this`status, this`processExit
      ensures Valid() && Later(old(View()), View())
      ensures View() == if old(status).Exited? || old(status).Failed? then old(View())
              else Life(Failed, outputs, Some(ProcessExit(None, message)))
    {
      if Frozen(status) { return; }
      processExit := Some(ProcessExit(None, message));
      Transition(Failed);
    }

    method Close()
      requires Valid()
      modifies this`status, this`processExit
      ensures Valid() && Later(old(View()), View()) && Frozen(status)
      ensures View() == if old(status).Exited? || old(status).Failed? then old(View())
              else Life(Exited, outputs, Some(ProcessExit(None, "")))
    {
      if !Frozen(status) {
        processExit := Some(ProcessExit(None, ""));
        Transition(Exited);
      }
    }

    /** One call, output or end. */
    method Meet(happening: Happening)
      requires Valid()
      modifies this
      ensures Valid() && Later(old(View()), View())
      ensures Frozen(status) == (Frozen(old(status)) || Ends(happening))
      ensures outputs == old(outputs) + Adds(Frozen(old(status)), happening)
    {
      hide Retains, Concat, CursorOf, DeltaOf;
      match happening {
        case Attaching(subscriberId, afterSeq) => var _ := Attach(subscriberId, afterSeq);
        case Typing(data) => var _ := WriteInput(data);
        case Resizing(cols, rows) => Resize(cols, rows);
        case Printing(data) => HandleOutput(data);
        case Exiting(exit) => HandleExit(exit);
        case Failing(message) => HandleError(message);
        case Closing => Close();
      }
    }

    /** A whole life: status and outputs only move forward, an ended session stays as it
        is, and the outputs are what was printed before the first end. */
    method Live(happenings: seq<Happening>)
      requires Valid()
      modifies this
      ensures Valid() && Later(old(View()), View())
      ensures outputs == old(outputs) + Ahead(Frozen(old(status)), happenings)
      ensures Frozen(status) <==>
                Frozen(old(status)) || exists h :: h in happenings && (h.Exiting? || h.Failing? || h.Closing?)
    {
      hide Retains, Concat, CursorOf, DeltaOf, Printed, Ahead, Adds;
      assert happenings[0..] == happenings;
      for k := 0 to |happenings|
        invariant Valid() && Later(old(View()), View())
        invariant outputs + Ahead(Frozen(status), happenings[k..]) ==
                  old(outputs) + Ahead(Frozen(old(status)), happenings)
        invariant Frozen(status) <==> Frozen(old(status)) || exists h :: h in happenings[..k] && Ends(h)
      {
        assert happenings[..k + 1] == happenings[..k] + [happenings[k]];
        ghost var before := View();
        OneBehind(outputs, Frozen(status), happenings, k);
        Meet(happenings[k]);
        LaterIsTransitive(old(View()), before, View());
      }
      NothingAhead(Frozen(status), happenings);
      assert happenings[..|happenings|] == happenings;
    }
  }

  lemma NothingAhead(frozen: bool, happenings: seq<Happening>)
    ensures Ahead(frozen, happenings[|happenings|..]) == []
  {
    assert happenings[|happenings|..] == [];
  }
}
