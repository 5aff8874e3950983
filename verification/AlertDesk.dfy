/** The SOC alert lifecycle and its append-only timeline. */
module AlertDesk {
  import opened Basics

  datatype Status = Open | Acknowledged | Resolved | FalsePositive

  datatype Kind =
    | Created | Assigned | Unassigned | AcknowledgedEvent | Escalated
    | NoteAdded | StatusChanged | ResolvedEvent | FalsePositiveEvent

  datatype Alert = Alert(status: Status, assignedTo: Option<string>, resolvedAt: Option<Time>,
                         resolution: Option<string>)

  /** A timeline row; the values are free text, as in the table. */
  datatype Event = Event(alert: nat, kind: Kind, oldValue: Option<string>, newValue: Option<string>)

  datatype Desk = Desk(alerts: seq<Alert>, timeline: seq<Event>)

  datatype Reply = Done | NotFound | BadRequest | NotEnforced

  function StatusText(s: Status): string {
    match s
    case Open => "open"
    case Acknowledged => "acknowledged"
    case Resolved => "resolved"
    case FalsePositive => "false_positive"
  }

  function ParseStatus(text: string): Option<Status> {
    if text == "open" then Some(Open)
    else if text == "acknowledged" then Some(Acknowledged)
    else if text == "resolved" then Some(Resolved)
    else if text == "false_positive" then Some(FalsePositive)
    else None
  }

  function ParseKind(text: string): Option<Kind> {
    if text == "created" then Some(Created)
    else if text == "assigned" then Some(Assigned)
    else if text == "unassigned" then Some(Unassigned)
    else if text == "acknowledged" then Some(AcknowledgedEvent)
    else if text == "escalated" then Some(Escalated)
    else if text == "note_added" then Some(NoteAdded)
    else if text == "status_changed" then Some(StatusChanged)
    else if text == "resolved" then Some(ResolvedEvent)
    else if text == "false_positive" then Some(FalsePositiveEvent)
    else None
  }

  predicate Terminal(s: Status) {
    s == Resolved || s == FalsePositive
  }

  // ---------------------------------------------------------------------------
  // Assignee identifiers
  // ---------------------------------------------------------------------------

  predicate IsBrace(c: char) {
    c == '{' || c == '}'
  }

  predicate IsHex(c: char) {
    '0' <= c <= '9' || 'a' <= c <= 'f' || 'A' <= c <= 'F'
  }

  function StripLeft(text: string): string {
    if text != "" && IsBrace(text[0]) then StripLeft(text[1..]) else text
  }

  function StripRight(text: string): string {
    if text != "" && IsBrace(text[|text| - 1]) then StripRight(text[..|text| - 1]) else text
  }

  /** The text without hyphens. */
  function Digits(text: string): string {
    if text == "" then ""
    else Digits(text[..|text| - 1]) + (if text[|text| - 1] == '-' then "" else [text[|text| - 1]])
  }

  /** Braces around the text and hyphens in it do not matter. */
  predicate IsUuid(text: string) {
    var digits := Digits(StripRight(StripLeft(text)));
    |digits| == 32 && forall i :: 0 <= i < 32 ==> IsHex(digits[i])
  }

  lemma {:induction false} DigitsShrink(text: string)
    ensures |Digits(text)| <= |text|
  {
    if text != "" {
      DigitsShrink(text[..|text| - 1]);
    }
  }

  /** What stripping leaves is a part of the text with braces around it and none at its ends. */
  lemma {:induction false} LeftStripped(text: string) returns (i: nat)
    ensures i <= |text| && StripLeft(text) == text[i..]
    ensures forall k :: 0 <= k < i ==> IsBrace(text[k])
    ensures i < |text| ==> !IsBrace(text[i])
  {
    if text != "" && IsBrace(text[0]) {
      var n := LeftStripped(text[1..]);
      i := n + 1;
      assert text[1..][n..] == text[i..];
      assert forall k :: 0 < k < i ==> text[k] == text[1..][k - 1];
    } else {
      i := 0;
    }
  }

  lemma {:induction false} RightStripped(text: string) returns (j: nat)
    ensures j <= |text| && StripRight(text) == text[..j]
    ensures forall k :: j <= k < |text| ==> IsBrace(text[k])
    ensures j > 0 ==> !IsBrace(text[j - 1])
  {
    if text != "" && IsBrace(text[|text| - 1]) {
      var shorter := text[..|text| - 1];
      j := RightStripped(shorter);
      assert shorter[..j] == text[..j];
    } else {
      j := |text|;
    }
  }

  /** The hyphens aside, the digits are the characters of the text, as many of them as there are. */
  lemma {:induction false} DigitsCount(text: string)
    ensures |Digits(text)| == |set k: nat | k < |text| && text[k] != '-'|
    ensures forall c :: c in Digits(text) <==> c in text && c != '-'
  {
    var all := set k: nat | k < |text| && text[k] != '-';
    if text == "" {
      assert all == {};
    } else {
      var n: nat := |text| - 1;
      DigitsCount(text[..n]);
      var earlier := set k: nat | k < n && text[..n][k] != '-';
      assert all == if text[n] == '-' then earlier else earlier + {n};
      assert text == text[..n] + [text[n]];
    }
  }

  /** The part from i to j is 32 hexadecimal digits and any hyphens, and everything around it is braces. */
  ghost predicate UuidPart(text: string, i: nat, j: nat) {
    && i <= j <= |text|
    && (forall k :: 0 <= k < i || j <= k < |text| ==> text[k] in {'{', '}'})
    && HexDigits(text[i..j])
  }

  ghost predicate HexDigits(part: string) {
    && (forall k :: 0 <= k < |part| ==>
          part[k] == '-' || '0' <= part[k] <= '9' || 'a' <= part[k] <= 'f' || 'A' <= part[k] <= 'F')
    && |set k: nat | k < |part| && part[k] != '-'| == 32
  }

  lemma DigitsAreHex(part: string)
    ensures HexDigits(part) <==> |Digits(part)| == 32 && forall i :: 0 <= i < 32 ==> IsHex(Digits(part)[i])
  {
    DigitsCount(part);
    if HexDigits(part) {
      forall i | 0 <= i < 32 ensures IsHex(Digits(part)[i]) {
        assert Digits(part)[i] in part;
      }
    } else if |Digits(part)| == 32 && forall i :: 0 <= i < 32 ==> IsHex(Digits(part)[i]) {
      forall k | 0 <= k < |part| ensures part[k] == '-' || IsHex(part[k]) {
        assert part[k] != '-' ==> part[k] in Digits(part);
      }
    }
  }

  lemma Stripped(text: string) returns (i: nat, j: nat)
    ensures i <= j <= |text| && StripRight(StripLeft(text)) == text[i..j]
    ensures forall k :: 0 <= k < i || j <= k < |text| ==> IsBrace(text[k])
    ensures i < j ==> !IsBrace(text[i]) && !IsBrace(text[j - 1])
  {
    i := LeftStripped(text);
    var n := RightStripped(text[i..]);
    j := i + n;
    assert text[i..][..n] == text[i..j];
    assert forall k :: j <= k < |text| ==> text[k] == text[i..][k - i];
  }

  /** An identifier is 32 hexadecimal digits in either case, with hyphens anywhere and braces around. */
  lemma UuidMeaning(text: string)
    ensures IsUuid(text) <==> exists i: nat, j: nat :: UuidPart(text, i, j)
  {
    var i, j := Stripped(text);
    DigitsAreHex(text[i..j]);
    if IsUuid(text) {
      assert UuidPart(text, i, j);
    }
    if p: nat, q: nat :| UuidPart(text, p, q) {
      StrippedIsPart(text, i, j, p, q);
    }
  }

  lemma StrippedIsPart(text: string, i: nat, j: nat, p: nat, q: nat)
    requires UuidPart(text, p, q) && i <= j <= |text|
    requires forall k :: 0 <= k < i || j <= k < |text| ==> IsBrace(text[k])
    requires i < j ==> !IsBrace(text[i]) && !IsBrace(text[j - 1])
    ensures i == p && j == q
  {
    var part := text[p..q];
    var digits := set k: nat | k < |part| && part[k] != '-';
    assert digits != {};
    var k :| k in digits;
    assert text[p + k] == part[k] && text[p] == part[0] && text[q - 1] == part[|part| - 1];
  }

  /** An analyst's identifier never reads as a status. */
  lemma UuidIsNoStatus(text: string)
    requires IsUuid(text)
    ensures ParseStatus(text) == None
  {
    var i := LeftStripped(text);
    var j := RightStripped(StripLeft(text));
    DigitsShrink(StripRight(StripLeft(text)));
  }

  // ---------------------------------------------------------------------------
  // Steps
  // ---------------------------------------------------------------------------

  datatype Step =
    | Raise
    | Acknowledge(id: nat)
    | Resolve(id: nat, outcome: string, now: Time)
    | Assign(id: nat, assignee: string, activeAnalyst: bool)
    | RequestAction(id: nat, action: string, hasUser: bool, enforced: bool)
    | AddEvent(id: nat, kind: string)

  function Verdict(outcome: string): Status {
    if outcome == "false_positive" then FalsePositive else Resolved
  }

  function Append(d: Desk, events: seq<Event>): Desk {
    d.(timeline := d.timeline + events)
  }

  function Apply(d: Desk, step: Step): (Desk, Reply) {
    match step
    case Raise =>
      (Desk(d.alerts + [Alert(Open, None, None, None)],
            d.timeline + [Event(|d.alerts|, Created, None, Some("open"))]),
       Done)
    case Acknowledge(id) =>
      if id >= |d.alerts| then (d, NotFound)
      else if d.alerts[id].status != Open then (d, BadRequest)
      else (Desk(d.alerts[id := d.alerts[id].(status := Acknowledged)],
                 d.timeline + [Event(id, AcknowledgedEvent, Some("open"), Some("acknowledged"))]), Done)
    case Resolve(id, outcome, now) =>
      if id >= |d.alerts| then (d, NotFound)
      else if Terminal(d.alerts[id].status) then (d, BadRequest)
      else
        var status := Verdict(outcome);
        (Desk(d.alerts[id := d.alerts[id].(status := status, resolvedAt := Some(now), resolution := Some(outcome))],
              d.timeline + [Event(id, StatusChanged, Some(StatusText(d.alerts[id].status)), Some(StatusText(status))),
                            Event(id, if status == FalsePositive then FalsePositiveEvent
                                  else ResolvedEvent, None, Some(outcome))]),
         Done)
    case Assign(id, assignee, activeAnalyst) =>
      if id >= |d.alerts| then (d, NotFound)
      else if !IsUuid(assignee) || !activeAnalyst then (d, BadRequest)
      else
        var previous := d.alerts[id].assignedTo;
        (Desk(d.alerts[id := d.alerts[id].(assignedTo := Some(assignee))],
              d.timeline + [Event(id, if previous == None then Assigned
                                  else StatusChanged, previous, Some(assignee))]), Done)
    case RequestAction(id, action, hasUser, enforced) =>
      if id >= |d.alerts| then (d, NotFound)
      else if !hasUser then (d, BadRequest)
      else (Append(d, [Event(id, NoteAdded, None, Some(action))]), if enforced then Done else NotEnforced)
    case AddEvent(id, kind) =>
      if id >= |d.alerts| then (d, NotFound)
      else if ParseKind(kind) == None then (d, BadRequest)
      else (Append(d, [Event(id, ParseKind(kind).value, None, None)]), Done)
  }

  /** The endpoints, each updating the alert row and then the timeline. */
  class AlertBoard {
    var alerts: seq<Alert>
    var timeline: seq<Event>

    ghost function State(): Desk
      reads this
    {
      Desk(alerts, timeline)
    }

    constructor ()
      ensures State() == Desk([], [])
    {
      alerts, timeline := [], [];
    }

    method RaiseAlert() returns (id: nat)
      modifies this
      ensures State() == Apply(old(State()), Raise).0 && id == |old(alerts)|
    {
      id := |alerts|;
      alerts := alerts + [Alert(Open, None, None, None)];
      timeline := timeline + [Event(id, Created, None, Some("open"))];
    }

    method AcknowledgeAlert(id: nat) returns (reply: Reply)
      modifies this
      ensures (State(), reply) == Apply(old(State()), Acknowledge(id))
    {
      if id >= |alerts| {
        return NotFound;
      }
      if alerts[id].status != Open {
        return BadRequest;
      }
      var oldStatus := alerts[id].status;
      alerts := alerts[id := alerts[id].(status := Acknowledged)];
      timeline := timeline + [Event(id, AcknowledgedEvent, Some(StatusText(oldStatus)),
                                    Some(StatusText(Acknowledged)))];
      reply := Done;
    }

    method ResolveAlert(id: nat, outcome: string, now: Time) returns (reply: Reply)
      modifies this
      ensures (State(), reply) == Apply(old(State()), Resolve(id, outcome, now))
    {
      if id >= |alerts| {
        return NotFound;
      }
      var newStatus := if outcome == "false_positive" then FalsePositive else Resolved;
      if alerts[id].status != Open && alerts[id].status != Acknowledged {
        return BadRequest;
      }
      var oldStatus := alerts[id].status;
      var row := alerts[id].(status := newStatus, resolution := Some(outcome));
      alerts := alerts[id := row.(resolvedAt := Some(now))];
      var changed := Event(id, StatusChanged, Some(StatusText(oldStatus)), Some(StatusText(newStatus)));
      var closed := Event(id, if newStatus == FalsePositive then FalsePositiveEvent
                          else ResolvedEvent, None, Some(outcome));
      timeline := timeline + [changed];
      timeline := timeline + [closed];
      assert timeline == old(timeline) + [changed, closed];
      reply := Done;
    }

    method AssignAlert(id: nat, assignee: string, activeAnalyst: bool) returns (reply: Reply)
      modifies this
      ensures (State(), reply) == Apply(old(State()), Assign(id, assignee, activeAnalyst))
    {
      if id >= |alerts| {
        return NotFound;
      }
      if !IsUuid(assignee) || !activeAnalyst {
        return BadRequest;
      }
      var oldAssignee := alerts[id].assignedTo;
      alerts := alerts[id := alerts[id].(assignedTo := Some(assignee))];
      var kind := if oldAssignee == None then Assigned else StatusChanged;
      timeline := timeline + [Event(id, kind, oldAssignee, Some(assignee))];
      reply := Done;
    }

    method RequestSecurityAction(id: nat, action: string, hasUser: bool, enforced: bool) returns (reply: Reply)
      modifies this
      ensures (State(), reply) == Apply(old(State()), RequestAction(id, action, hasUser, enforced))
    {
      if id >= |alerts| {
        return NotFound;
      }
      if !hasUser {
        return BadRequest;
      }
      timeline := timeline + [Event(id, NoteAdded, None, Some(action))];
      reply := if enforced then Done else NotEnforced;
    }

    method AddTimelineEvent(id: nat, kind: string) returns (reply: Reply)
      modifies this
      ensures (State(), reply) == Apply(old(State()), AddEvent(id, kind))
    {
      if id >= |alerts| {
        return NotFound;
      }
      var parsed := ParseKind(kind);
      if parsed == None {
        return BadRequest;
      }
      timeline := timeline + [Event(id, parsed.value, None, None)];
      reply := Done;
    }
  }

  // ---------------------------------------------------------------------------
  // What the endpoints do, in the texts of the API
  // ---------------------------------------------------------------------------

  /** The status texts name the four statuses, and only them. */
  lemma StatusRoundTrip(status: Status, text: string)
    ensures ParseStatus(StatusText(status)) == Some(status)
    ensures ParseStatus(text) == Some(status) <==> text == StatusText(status)
    ensures StatusText(status) in {"open", "acknowledged"} <==> !Terminal(status)
  {}

  function KindText(kind: Kind): string {
    match kind
    case Created => "created"
    case Assigned => "assigned"
    case Unassigned => "unassigned"
    case AcknowledgedEvent => "acknowledged"
    case Escalated => "escalated"
    case NoteAdded => "note_added"
    case StatusChanged => "status_changed"
    case ResolvedEvent => "resolved"
    case FalsePositiveEvent => "false_positive"
  }

  /** The same for the kinds of events. */
  lemma KindRoundTrip(kind: Kind, text: string)
    ensures ParseKind(text) == Some(kind) <==> text == KindText(kind)
  {}

  /** One alert changes, no other, and the timeline grows by these events of it. */
  ghost predicate Moves(d: Desk, after: Desk, id: nat, events: seq<Event>) {
    && id < |d.alerts| && |after.alerts| == |d.alerts| && after.alerts == d.alerts[id := after.alerts[id]]
    && after.timeline == d.timeline + events
    && forall k :: 0 <= k < |events| ==> events[k].alert == id
  }

  /**
   Resolving an alert that is not yet closed: it becomes a false positive exactly for that
   outcome and resolved for any other, it is closed as of now with the outcome, and two
   events tell the change and its kind. A closed alert is left alone.
   */
  lemma ResolveMeaning(d: Desk, id: nat, outcome: string, now: Time)
    ensures var (after, reply) := Apply(d, Resolve(id, outcome, now));
            && (reply == NotFound <==> id >= |d.alerts|)
            && (reply == BadRequest <==>
                  id < |d.alerts| && StatusText(d.alerts[id].status) !in {"open", "acknowledged"})
            && (reply != Done ==> after == d)
            && (reply == Done ==>
                  && Moves(d, after, id, after.timeline[|d.timeline|..])
                  && var x, y := d.alerts[id], after.alerts[id];
                  && StatusText(y.status) == (if outcome == "false_positive" then "false_positive" else "resolved")
                  && y.assignedTo == x.assignedTo
                  && y.resolvedAt == Some(now) && y.resolution == Some(outcome)
                  && |after.timeline| == |d.timeline| + 2
                  && var first, second := after.timeline[|d.timeline|], after.timeline[|d.timeline| + 1];
                  && first == Event(id, StatusChanged, Some(StatusText(x.status)), Some(StatusText(y.status)))
                  && ParseKind(StatusText(y.status)) == Some(second.kind) && second.newValue == Some(outcome))
  {
    assert "resolved"[0] != "false_positive"[0];
  }

  /** Acknowledging: only an open alert, which then reads as acknowledged, with the event of that name. */
  lemma AcknowledgeMeaning(d: Desk, id: nat)
    ensures var (after, reply) := Apply(d, Acknowledge(id));
            && (reply == NotFound <==> id >= |d.alerts|)
            && (reply == BadRequest <==> id < |d.alerts| && StatusText(d.alerts[id].status) != "open")
            && (reply != Done ==> after == d)
            && (reply == Done ==>
                  && |after.timeline| == |d.timeline| + 1 && Moves(d, after, id, [after.timeline[|d.timeline|]])
                  && StatusText(after.alerts[id].status) == "acknowledged"
                  && after.alerts[id].(status := Open) == d.alerts[id]
                  && var e := after.timeline[|d.timeline|];
                  && ParseKind("acknowledged") == Some(e.kind)
                  && e.oldValue == Some("open") && e.newValue == Some("acknowledged"))
  {}

  /** Assigning: only to an active analyst's id; the first assignment and a change are told apart. */
  lemma AssignMeaning(d: Desk, id: nat, assignee: string, activeAnalyst: bool)
    ensures var (after, reply) := Apply(d, Assign(id, assignee, activeAnalyst));
            && (reply == NotFound <==> id >= |d.alerts|)
            && (reply == BadRequest <==> id < |d.alerts| && !(IsUuid(assignee) && activeAnalyst))
            && (reply != Done ==> after == d)
            && (reply == Done ==>
                  && |after.timeline| == |d.timeline| + 1 && Moves(d, after, id, [after.timeline[|d.timeline|]])
                  && after.alerts[id] == d.alerts[id].(assignedTo := Some(assignee))
                  && var e, was := after.timeline[|d.timeline|], d.alerts[id].assignedTo;
                  && ParseKind(if was == None then "assigned" else "status_changed") == Some(e.kind)
                  && e.oldValue == was && e.newValue == Some(assignee))
  {}

  /** Raising, noting an action and adding by hand: one event each, and no existing alert changes. */
  lemma NotingMeaning(d: Desk, id: nat, action: string, hasUser: bool, enforced: bool, kind: string)
    ensures var (after, reply) := Apply(d, Raise);
            && reply == Done && |after.alerts| == |d.alerts| + 1 && after.alerts[..|d.alerts|] == d.alerts
            && StatusText(after.alerts[|d.alerts|].status) == "open" && after.alerts[|d.alerts|].assignedTo == None
            && after.timeline == d.timeline + [Event(|d.alerts|, Created, None, Some("open"))]
    ensures var (after, reply) := Apply(d, RequestAction(id, action, hasUser, enforced));
            && (reply == NotFound <==> id >= |d.alerts|) && (reply == BadRequest <==> id < |d.alerts| && !hasUser)
            && (reply == NotEnforced <==> id < |d.alerts| && hasUser && !enforced)
            && after.alerts == d.alerts
            && after.timeline ==
               d.timeline + (if id < |d.alerts| && hasUser
                             then [Event(id, ParseKind("note_added").value, None, Some(action))] else [])
    ensures var (after, reply) := Apply(d, AddEvent(id, kind));
            && (reply == Done <==> id < |d.alerts| && ParseKind(kind).Some?)
            && after.alerts == d.alerts
            && after.timeline ==
               d.timeline + (if reply == Done then [Event(id, ParseKind(kind).value, None, None)] else [])
  {
    assert d.timeline + [] == d.timeline;
  }

  // ---------------------------------------------------------------------------
  // Replay
  // ---------------------------------------------------------------------------

  /** The status an event reports: only three kinds count, and only when the new value reads as a status. */
  function Reports(e: Event, id: nat): Option<Status> {
    if e.alert == id && (e.kind == Created || e.kind == AcknowledgedEvent || e.kind == StatusChanged)
       && e.newValue.Some?
    then ParseStatus(e.newValue.value) else None
  }

  /** The status a reader obtains by folding the alert's timeline. */
  function Replay(timeline: seq<Event>, id: nat): Option<Status> {
    if timeline == [] then None
    else
      var reported := Reports(timeline[|timeline| - 1], id);
      if reported.Some? then reported else Replay(timeline[..|timeline| - 1], id)
  }

  /** Every reporting event names the status that held before it; the first is the creation. */
  ghost predicate Chained(timeline: seq<Event>, id: nat) {
    forall i :: 0 <= i < |timeline| && Reports(timeline[i], id).Some? ==> Linked(timeline, id, i)
  }

  ghost predicate Linked(timeline: seq<Event>, id: nat, i: nat)
    requires i < |timeline|
  {
    var before := Replay(timeline[..i], id);
    if before == None then timeline[i].kind == Created && timeline[i].oldValue == None
    else timeline[i].oldValue == Some(StatusText(before.value))
  }

  ghost predicate AlertOk(d: Desk, id: nat)
    requires id < |d.alerts|
  {
    var a := d.alerts[id];
    && Replay(d.timeline, id) == Some(a.status) && Chained(d.timeline, id)
    && (a.resolvedAt.Some? <==> Terminal(a.status))
    && (a.assignedTo.Some? ==> IsUuid(a.assignedTo.value))
  }

  ghost predicate Inv(d: Desk) {
    && (forall id :: 0 <= id < |d.alerts| ==> AlertOk(d, id))
    && (forall i :: 0 <= i < |d.timeline| ==> d.timeline[i].alert < |d.alerts|)
  }

  /** Appending one event either reports a new status, correctly linked, or leaves the replay alone. */
  lemma AppendEvent(timeline: seq<Event>, e: Event, id: nat)
    requires Chained(timeline, id)
    requires Reports(e, id).Some? ==>
               if Replay(timeline, id) == None then e.kind == Created && e.oldValue == None
               else e.oldValue == Some(StatusText(Replay(timeline, id).value))
    ensures Chained(timeline + [e], id)
    ensures Replay(timeline + [e], id) == if Reports(e, id).Some? then Reports(e, id) else Replay(timeline, id)
  {
    var longer := timeline + [e];
    assert longer[..|timeline|] == timeline;
    forall i | 0 <= i < |longer| && Reports(longer[i], id).Some? ensures Linked(longer, id, i) {
      if i < |timeline| {
        assert Linked(timeline, id, i);
        assert longer[..i] == timeline[..i];
      }
    }
  }

  lemma {:induction false} ReplayOfStranger(timeline: seq<Event>, id: nat)
    requires forall i :: 0 <= i < |timeline| ==> timeline[i].alert != id
    ensures Replay(timeline, id) == None
  {
    if timeline != [] {
      ReplayOfStranger(timeline[..|timeline| - 1], id);
    }
  }

  /** An event that reports nothing changes nobody's replay. */
  lemma SilentEvent(d: Desk, e: Event, alerts: seq<Alert>)
    requires Inv(d) && e.alert < |d.alerts| && |alerts| == |d.alerts|
    requires Reports(e, e.alert) == None
    requires forall id :: 0 <= id < |alerts| ==>
                            && alerts[id].status == d.alerts[id].status
                            && alerts[id].resolvedAt == d.alerts[id].resolvedAt
                            && (alerts[id].assignedTo.Some? ==> IsUuid(alerts[id].assignedTo.value))
    ensures Inv(Desk(alerts, d.timeline + [e]))
  {
    forall id | 0 <= id < |alerts| ensures AlertOk(Desk(alerts, d.timeline + [e]), id) {
      assert AlertOk(d, id);
      AppendEvent(d.timeline, e, id);
    }
  }

  /** A status change of one alert, told by a correctly linked event. */
  lemma ReportingEvent(d: Desk, e: Event, row: Alert)
    requires Inv(d) && e.alert < |d.alerts|
    requires Reports(e, e.alert) == Some(row.status) && e.oldValue == Some(StatusText(d.alerts[e.alert].status))
    requires row.resolvedAt.Some? <==> Terminal(row.status)
    requires row.assignedTo == d.alerts[e.alert].assignedTo
    ensures Inv(Desk(d.alerts[e.alert := row], d.timeline + [e]))
  {
    var after := Desk(d.alerts[e.alert := row], d.timeline + [e]);
    forall id | 0 <= id < |after.alerts| ensures AlertOk(after, id) {
      assert AlertOk(d, id);
      AppendEvent(d.timeline, e, id);
    }
  }

  lemma RaiseKeepsInv(d: Desk)
    requires Inv(d)
    ensures Inv(Apply(d, Raise).0)
  {
    var after := Apply(d, Raise).0;
    var e := Event(|d.alerts|, Created, None, Some("open"));
    forall id | 0 <= id < |after.alerts| ensures AlertOk(after, id) {
      if id < |d.alerts| {
        assert AlertOk(d, id);
      } else {
        ReplayOfStranger(d.timeline, id);
      }
      AppendEvent(d.timeline, e, id);
    }
  }

  lemma ResolveKeepsInv(d: Desk, id: nat, outcome: string, now: Time)
    requires Inv(d) && id < |d.alerts| && !Terminal(d.alerts[id].status)
    ensures Inv(Apply(d, Resolve(id, outcome, now)).0)
  {
    var after := Apply(d, Resolve(id, outcome, now)).0;
    var row := after.alerts[id];
    var first := Event(id, StatusChanged, Some(StatusText(d.alerts[id].status)), Some(StatusText(row.status)));
    var second := Event(id, if row.status == FalsePositive then FalsePositiveEvent
                        else ResolvedEvent, None, Some(outcome));
    ReportingEvent(d, first, row);
    var middle := Desk(d.alerts[id := row], d.timeline + [first]);
    forall k | 0 <= k < |middle.alerts|
      ensures middle.alerts[k].assignedTo.Some? ==> IsUuid(middle.alerts[k].assignedTo.value)
    {
      assert AlertOk(middle, k);
    }
    SilentEvent(middle, second, middle.alerts);
    assert d.timeline + [first, second] == (d.timeline + [first]) + [second];
  }

  lemma AssignKeepsInv(d: Desk, id: nat, assignee: string)
    requires Inv(d) && id < |d.alerts| && IsUuid(assignee)
    ensures Inv(Apply(d, Assign(id, assignee, true)).0)
  {
    UuidIsNoStatus(assignee);
    var after := Apply(d, Assign(id, assignee, true)).0;
    forall k | 0 <= k < |after.alerts|
      ensures after.alerts[k].assignedTo.Some? ==> IsUuid(after.alerts[k].assignedTo.value)
    {
      assert AlertOk(d, k);
    }
    SilentEvent(d, after.timeline[|d.timeline|], after.alerts);
  }

  lemma StepKeepsInv(d: Desk, step: Step)
    requires Inv(d)
    ensures Inv(Apply(d, step).0)
  {
    match step {
      case Raise => RaiseKeepsInv(d);
      case Acknowledge(id) =>
        if id < |d.alerts| && d.alerts[id].status == Open {
          assert AlertOk(d, id);
          ReportingEvent(d, Event(id, AcknowledgedEvent, Some("open"), Some("acknowledged")),
                         d.alerts[id].(status := Acknowledged));
        }
      case Resolve(id, outcome, now) =>
        if id < |d.alerts| && !Terminal(d.alerts[id].status) {
          ResolveKeepsInv(d, id, outcome, now);
        }
      case Assign(id, assignee, activeAnalyst) =>
        if id < |d.alerts| && IsUuid(assignee) && activeAnalyst {
          AssignKeepsInv(d, id, assignee);
        }
      case _ =>
        var after := Apply(d, step).0;
        if after != d {
          forall k | 0 <= k < |d.alerts| ensures d.alerts[k].assignedTo.Some? ==> IsUuid(d.alerts[k].assignedTo.value) {
            assert AlertOk(d, k);
          }
          SilentEvent(d, after.timeline[|d.timeline|], d.alerts);
        }
    }
  }

  function Run(d: Desk, steps: seq<Step>): Desk {
    if steps == [] then d else Apply(Run(d, steps[..|steps| - 1]), steps[|steps| - 1]).0
  }

  /**
   In every reachable state an alert's timeline replays to its current status through
   correctly linked events, and resolved_at is set exactly in the two terminal
   statuses - although reassignments also write status_changed events and analysts
   may add events of any kind by hand.
   */
  lemma {:induction false} TimelineReplays(steps: seq<Step>)
    ensures Inv(Run(Desk([], []), steps))
  {
    if steps != [] {
      TimelineReplays(steps[..|steps| - 1]);
      StepKeepsInv(Run(Desk([], []), steps[..|steps| - 1]), steps[|steps| - 1]);
    }
  }

  /** Open, acknowledged, terminal: the only order in which an alert moves. */
  function Progress(s: Status): nat {
    match s
    case Open => 0
    case Acknowledged => 1
    case _ => 2
  }

  /** Statuses only move forward, the terminal ones are absorbing with their resolution, and the timeline only grows. */
  lemma {:induction false} LifecycleMovesForward(d: Desk, steps: seq<Step>, id: nat)
    requires id < |d.alerts|
    ensures var after := Run(d, steps);
            && id < |after.alerts| && d.timeline <= after.timeline
            && Progress(d.alerts[id].status) <= Progress(after.alerts[id].status)
            && (Terminal(d.alerts[id].status) ==>
                  && after.alerts[id].status == d.alerts[id].status
                  && after.alerts[id].resolution == d.alerts[id].resolution
                  && after.alerts[id].resolvedAt == d.alerts[id].resolvedAt)
  {
    if steps != [] {
      LifecycleMovesForward(d, steps[..|steps| - 1], id);
      StepMovesForward(Run(d, steps[..|steps| - 1]), steps[|steps| - 1], id);
    }
  }

  lemma StepMovesForward(d: Desk, step: Step, id: nat)
    requires id < |d.alerts|
    ensures var after := Apply(d, step).0;
            && id < |after.alerts| && d.timeline <= after.timeline
            && Progress(d.alerts[id].status) <= Progress(after.alerts[id].status)
            && (Terminal(d.alerts[id].status) ==>
                  after.alerts[id].(assignedTo := d.alerts[id].assignedTo) == d.alerts[id])
  {}
}
