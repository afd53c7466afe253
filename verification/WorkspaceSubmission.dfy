/** Submitting the workspace of a proposed change, and what retries make of a failure. */
module WorkspaceSubmission {
  import opened Options

  // --- Failures -----------------------------------------------------------------------------

  /** `Local` is an attribute, key or type error, `Plain` a runtime or value error, `Network`
      an operating-system, time-out or CloudVision error, and `Foreign` any other. */
  datatype Fault = Local | Plain | Network | Foreign

  /** The handler around an outcome comment, and the one around the CloudVision calls. */
  predicate CommentHandler(f: Fault) {
    f == Local || f == Plain
  }

  predicate RemoteHandler(f: Fault) {
    f == Plain || f == Network
  }

  /** A remote step is carried out, lost, or carried out although it raises. */
  datatype Effect = Done | Lost(fault: Fault) | DoneBut(fault: Fault)

  function FaultOf(e: Effect): Option<Fault> {
    match e
    case Done => None
    case Lost(f) => Some(f)
    case DoneBut(f) => Some(f)
  }

  // --- The thread -----------------------------------------------------------------------------

  datatype Text = UrlText(url: string) | SuccessText(at: Option<string>) | AlreadyText | FailureText(reason: string)
  datatype Label = WorkspaceLabel | ChangeLabel

  /** A thread is known by its place in the list of threads. */
  datatype Thread = Thread(target: Label, comments: seq<Text>, resolved: bool)

  /** `missed` is whether the second lookup answers that there is no such thread. */
  datatype CommentWeather = CommentWeather(
    lookup: Effect, create: Effect, url: Effect, again: Effect, missed: bool, comment: Effect, resolve: Effect)

  /** The threads after a step, and what the step raised. */
  datatype Posted = Posted(threads: seq<Thread>, fault: Option<Fault>)

  function FirstLabelled(threads: seq<Thread>, target: Label): (r: Option<nat>)
    ensures r.Some? ==> r.value < |threads|
  {
    if threads == [] then None
    else
      var n := |threads| - 1;
      var earlier := FirstLabelled(threads[..n], target);
      if earlier.Some? then earlier else if threads[n].target == target then Some(n) else None
  }

  /** `_lookup_thread`: by id when that thread exists, else by label. */
  function Lookup(threads: seq<Thread>, id: Option<nat>, target: Label): (r: Option<nat>)
    ensures r.Some? ==> r.value < |threads|
  {
    if id.Some? && id.value < |threads| then id else FirstLabelled(threads, target)
  }

  function Add(threads: seq<Thread>, t: nat, text: Text, e: Effect): Posted
    requires t < |threads|
  {
    if e.Lost? then Posted(threads, Some(e.fault))
    else Posted(threads[t := threads[t].(comments := threads[t].comments + [text])], FaultOf(e))
  }

  /** A text is not added to the comments it is `seen` among. */
  function AddOnce(threads: seq<Thread>, t: nat, text: Text, seen: bool, e: Effect): Posted
    requires t < |threads|
  {
    if seen && text in threads[t].comments then Posted(threads, None) else Add(threads, t, text, e)
  }

  /** Comment, then resolve. */
  function Conclude(threads: seq<Thread>, t: nat, text: Text, resolved: bool, seen: bool, w: CommentWeather): Posted
    requires t < |threads|
  {
    var commented := AddOnce(threads, t, text, seen, w.comment);
    if commented.fault.Some? then commented
    else if w.resolve.Lost? then Posted(commented.threads, Some(w.resolve.fault))
    else Posted(commented.threads[t := commented.threads[t].(resolved := resolved)], FaultOf(w.resolve))
  }

  /** The thread is there: the URL comment first, when there is a URL, then the outcome. */
  function PostTo(threads: seq<Thread>, t: nat, target: Label, url: Option<string>, text: Text, resolved: bool, w: CommentWeather): Posted
    requires t < |threads|
  {
    var linked := Link(threads, t, url, w);
    if linked.fault.Some? then linked
    else if target == WorkspaceLabel && w.again != Done then Posted(linked.threads, FaultOf(w.again))
    else Conclude(linked.threads, t, text, resolved, Sees(target, w), w)
  }

  function Link(threads: seq<Thread>, t: nat, url: Option<string>, w: CommentWeather): (r: Posted)
    requires t < |threads|
    ensures |r.threads| == |threads|
  {
    if url.Some? then AddOnce(threads, t, UrlText(url.value), true, w.url) else Posted(threads, None)
  }

  /** The outcome is compared with the comments of the second lookup, which are none when it
      finds no thread. Without a workspace id there is no second lookup. */
  predicate Sees(target: Label, w: CommentWeather) {
    target == ChangeLabel || !w.missed
  }

  /** `_append_outcome_comment`, which without a workspace id is `_record_change_outcome`. */
  function Append(threads: seq<Thread>, id: Option<nat>, target: Label, url: Option<string>, text: Text, resolved: bool, w: CommentWeather): Posted {
    if w.lookup != Done then Posted(threads, FaultOf(w.lookup))
    else
      var found := Lookup(threads, id, target);
      if found.Some? then PostTo(threads, found.value, target, url, text, resolved, w)
      else if w.create.Lost? then Posted(threads, Some(w.create.fault))
      else
        var created := threads + [Thread(target, [], false)];
        if w.create.DoneBut? then Posted(created, Some(w.create.fault))
        else PostTo(created, |threads|, target, url, text, resolved, w)
  }

  // --- A submission ------------------------------------------------------------------------------

  datatype Status = Built | Submitted | SubmitFailed | OtherStatus(name: string)

  predicate Ready(s: Status) {
    s == Built || s == SubmitFailed
  }

  /** What no run changes. `configUrl` is the URL that the CloudVision configuration leads to. */
  datatype Record = Record(hasId: bool, threadId: Option<nat>, configUrl: Option<string>)

  /** What is recorded beside the status. `url` is the recorded URL when it is a valid one. */
  datatype Notes = Notes(
    url: Option<string>, change: Option<string>, changeUrl: Option<string>,
    submittedAt: Option<string>, attemptedAt: Option<string>, error: Option<string>)

  /** `remote` is whether CloudVision holds the workspace as submitted, `requests` how many
      submissions it was asked for. */
  datatype State = State(status: Status, notes: Notes, remote: bool, requests: nat, threads: seq<Thread>)

  /** What the environment does to one run. `takes` is whether a request that arrives makes
      the workspace submitted, `close` what leaving the CloudVision client raises, `change`
      and `changeUrl` the change control that the answer names, `time` the clock's. */
  datatype Weather = Weather(
    config: bool, connect: Effect, get: Effect, submit: Effect, takes: bool, answersId: bool, wait: Effect, rejected: bool,
    close: Option<Fault>, reason: string, change: Option<string>, changeUrl: Option<string>, time: string,
    save: Effect, comments: CommentWeather, saveFailure: Effect, failureComments: CommentWeather)

  /** The one thing asked of CloudVision: a response that is not a failure is the truth. */
  predicate Honest(w: Weather) {
    w.submit == Done && w.answersId && w.wait == Done && !w.rejected ==> w.takes
  }

  datatype Outcome = SubmittedNow | AlreadySubmitted | Failed | Escaped(fault: Fault)

  /** What is in hand when the CloudVision part of a run is over. */
  datatype Remote = Returned(outcome: Outcome) | Answered | Fell(fault: Fault)

  function ThreadUrl(url: Option<string>, r: Record, w: Weather): Option<string> {
    if url.Some? || !w.config || !r.hasId then url else r.configUrl
  }

  function Save(status: Status, wanted: Status, e: Effect): Status {
    if e.Lost? then status else wanted
  }

  /** `_set_optional_attr`. */
  function Or(value: Option<string>, kept: Option<string>): Option<string> {
    if value.Some? then value else kept
  }

  /** `_save_workspace_success`. */
  function SaveSuccess(s: State, url: Option<string>, w: Weather): State {
    var n := s.notes;
    if w.save.Lost? then s
    else s.(status := Submitted,
            notes := Notes(Or(url, n.url), Or(w.change, n.change), Or(w.changeUrl, n.changeUrl),
                           Some(w.time), n.attemptedAt, Some("")))
  }

  /** `_save_workspace_failure`. */
  function SaveFailure(s: State, reason: string, w: Weather): State {
    if w.saveFailure.Lost? then s
    else s.(status := SubmitFailed, notes := s.notes.(attemptedAt := Some(w.time), error := Some(reason)))
  }

  /** `_fail_workspace` never raises. */
  function Fail(s: State, r: Record, url: Option<string>, reason: string, w: Weather): State {
    SaveFailure(s, reason, w).(
       threads := if r.hasId then Append(s.threads, r.threadId, WorkspaceLabel, url, FailureText(reason), false, w.failureComments).threads
                  else Append(s.threads, None, ChangeLabel, None, FailureText(reason), false, w.failureComments).threads)
  }

  /** The comment on an outcome that is not a failure: what its handler does not catch escapes. */
  function Comment(s: State, r: Record, url: Option<string>, text: Text, outcome: Outcome, w: Weather): (State, Outcome) {
    var posted := Append(s.threads, r.threadId, WorkspaceLabel, url, text, true, w.comments);
    (s.(threads := posted.threads),
     if posted.fault.None? || CommentHandler(posted.fault.value) then outcome else Escaped(posted.fault.value))
  }

  /** `_already_submitted`: a save that fails is passed over. */
  function Already(s: State, r: Record, w: Weather): (State, Outcome) {
    Comment(s.(status := Save(s.status, Submitted, w.save)), r, s.notes.url, AlreadyText, AlreadySubmitted, w)
  }

  /** Inside the CloudVision client. */
  function Talk(s: State, r: Record, w: Weather): (State, Remote) {
    if w.get != Done then (s, Fell(FaultOf(w.get).value))
    else if s.remote then
      var (s', outcome) := Already(s, r, w);
      (s', if outcome.Escaped? then Fell(outcome.fault) else Returned(outcome))
    else
      var s' := if w.submit.Lost? then s else s.(requests := s.requests + 1, remote := w.takes);
      if w.submit != Done then (s', Fell(FaultOf(w.submit).value))
      else if !w.answersId then (Fail(s', r, ThreadUrl(s.notes.url, r, w), "no request id", w), Returned(Failed))
      else if w.wait != Done then (s', Fell(FaultOf(w.wait).value))
      else (s', Answered)
  }

  /** The client around it: entering and leaving can raise too. */
  function Session(s: State, r: Record, w: Weather): (State, Remote) {
    if w.connect != Done then (s, Fell(FaultOf(w.connect).value))
    else
      var (s', remote) := Talk(s, r, w);
      (s', if w.close.Some? then Fell(w.close.value) else remote)
  }

  /** After an answer: save the success, which may raise, then comment. */
  function Settle(s: State, r: Record, url: Option<string>, w: Weather): (State, Outcome) {
    if w.rejected then (Fail(s, r, url, w.reason, w), Failed)
    else
      var s' := SaveSuccess(s, url, w);
      if w.save != Done then (s', Escaped(FaultOf(w.save).value))
      else Comment(s', r, url, SuccessText(url), SubmittedNow, w)
  }

  /** `_submit_workspace`. */
  function Submit(s: State, r: Record, w: Weather): (State, Outcome) {
    if !r.hasId then (Fail(s, r, None, "missing workspace id", w), Failed)
    else if s.status == Submitted then Already(s, r, w)
    else if !w.config then (Fail(s, r, ThreadUrl(s.notes.url, r, w), "no credentials", w), Failed)
    else if !Ready(s.status) then (Fail(s, r, ThreadUrl(s.notes.url, r, w), "not ready", w), Failed)
    else
      var (s', remote) := Session(s, r, w);
      match remote
      case Returned(outcome) => (s', outcome)
      case Answered => Settle(s', r, ThreadUrl(s.notes.url, r, w), w)
      case Fell(f) => if RemoteHandler(f) then (Fail(s', r, ThreadUrl(s.notes.url, r, w), w.reason, w), Failed) else (s', Escaped(f))
  }

  class Lifecycle {
    var status: Status
    var notes: Notes
    var remote: bool
    var requests: nat
    var threads: seq<Thread>

    ghost function Now(): State
      reads this
    {
      State(status, notes, remote, requests, threads)
    }

    constructor (s: State)
      ensures Now() == s
    {
      status, notes, remote, requests, threads := s.status, s.notes, s.remote, s.requests, s.threads;
    }

    method AddCommentOnce(t: nat, text: Text, seen: bool, e: Effect) returns (fault: Option<Fault>)
      requires t < |threads|
      modifies this`threads
      ensures Posted(threads, fault) == AddOnce(old(threads), t, text, seen, e)
      ensures |threads| == |old(threads)|
    {
      if seen && text in threads[t].comments {
        return None;
      }
      if !e.Lost? {
        threads := threads[t := threads[t].(comments := threads[t].comments + [text])];
      }
      fault := FaultOf(e);
    }

    method AppendOutcomeComment(id: Option<nat>, target: Label, url: Option<string>, text: Text, resolved: bool, w: CommentWeather)
        returns (fault: Option<Fault>)
      modifies this`threads
      ensures Posted(threads, fault) == Append(old(threads), id, target, url, text, resolved, w)
    {
      if w.lookup != Done {
        return FaultOf(w.lookup);
      }
      var t: nat;
      var found := Lookup(threads, id, target);
      if found.Some? {
        t := found.value;
      } else {
        if !w.create.Lost? {
          threads := threads + [Thread(target, [], false)];
        }
        if w.create != Done {
          return FaultOf(w.create);
        }
        t := |threads| - 1;
      }
      fault := PostOutcome(t, target, url, text, resolved, w);
    }

    method PostOutcome(t: nat, target: Label, url: Option<string>, text: Text, resolved: bool, w: CommentWeather)
        returns (fault: Option<Fault>)
      requires t < |threads|
      modifies this`threads
      ensures Posted(threads, fault) == PostTo(old(threads), t, target, url, text, resolved, w)
    {
      if url.Some? {
        fault := AddCommentOnce(t, UrlText(url.value), true, w.url);
        if fault.Some? {
          return;
        }
      }
      if target == WorkspaceLabel && w.again != Done {
        return FaultOf(w.again);
      }
      fault := AddCommentOnce(t, text, Sees(target, w), w.comment);
      if fault.Some? {
        return;
      }
      if !w.resolve.Lost? {
        threads := threads[t := threads[t].(resolved := resolved)];
      }
      fault := FaultOf(w.resolve);
    }

    method FailWorkspace(r: Record, url: Option<string>, reason: string, w: Weather)
      modifies this
      ensures Now() == Fail(old(Now()), r, url, reason, w)
    {
      if !w.saveFailure.Lost? {
        status, notes := SubmitFailed, notes.(attemptedAt := Some(w.time), error := Some(reason));
      }
      if r.hasId {
        var fault := AppendOutcomeComment(r.threadId, WorkspaceLabel, url, FailureText(reason), false, w.failureComments);
      } else {
        var fault := AppendOutcomeComment(None, ChangeLabel, None, FailureText(reason), false, w.failureComments);
      }
    }

    method CommentOutcome(r: Record, url: Option<string>, text: Text, reported: Outcome, w: Weather) returns (o: Outcome)
      modifies this`threads
      ensures (Now(), o) == Comment(old(Now()), r, url, text, reported, w)
    {
      var fault := AppendOutcomeComment(r.threadId, WorkspaceLabel, url, text, true, w.comments);
      o := if fault.None? || CommentHandler(fault.value) then reported else Escaped(fault.value);
    }

    method AlreadyDone(r: Record, w: Weather) returns (o: Outcome)
      modifies this
      ensures (Now(), o) == Already(old(Now()), r, w)
    {
      if !w.save.Lost? {
        status := Submitted;
      }
      o := CommentOutcome(r, notes.url, AlreadyText, AlreadySubmitted, w);
    }

    method TalkToCloudVision(r: Record, w: Weather) returns (got: Remote)
      modifies this
      ensures (Now(), got) == Session(old(Now()), r, w)
    {
      var url := ThreadUrl(notes.url, r, w);
      if w.connect != Done {
        return Fell(FaultOf(w.connect).value);
      }
      if w.get != Done {
        got := Fell(FaultOf(w.get).value);
      } else if remote {
        var o := AlreadyDone(r, w);
        got := if o.Escaped? then Fell(o.fault) else Returned(o);
      } else {
        if !w.submit.Lost? {
          requests := requests + 1;
          remote := w.takes;
        }
        if w.submit != Done {
          got := Fell(FaultOf(w.submit).value);
        } else if !w.answersId {
          FailWorkspace(r, url, "no request id", w);
          got := Returned(Failed);
        } else {
          got := if w.wait != Done then Fell(FaultOf(w.wait).value) else Answered;
        }
      }
      if w.close.Some? {
        got := Fell(w.close.value);
      }
    }

    method SubmitWorkspace(r: Record, w: Weather) returns (o: Outcome)
      modifies this
      ensures (Now(), o) == Submit(old(Now()), r, w)
    {
      var url := ThreadUrl(notes.url, r, w);
      if !r.hasId {
        FailWorkspace(r, None, "missing workspace id", w);
        return Failed;
      }
      if status == Submitted {
        o := AlreadyDone(r, w);
        return;
      }
      if !w.config {
        FailWorkspace(r, url, "no credentials", w);
        return Failed;
      }
      if !Ready(status) {
        FailWorkspace(r, url, "not ready", w);
        return Failed;
      }
      var got := TalkToCloudVision(r, w);
      match got
      case Returned(outcome) =>
        return outcome;
      case Fell(f) =>
        if !RemoteHandler(f) {
          return Escaped(f);
        }
        FailWorkspace(r, url, w.reason, w);
        return Failed;
      case Answered =>
        if w.rejected {
          FailWorkspace(r, url, w.reason, w);
          return Failed;
        }
        if !w.save.Lost? {
          status := Submitted;
          notes := Notes(Or(url, notes.url), Or(w.change, notes.change), Or(w.changeUrl, notes.changeUrl),
                         Some(w.time), notes.attemptedAt, Some(""));
        }
        if w.save != Done {
          return Escaped(FaultOf(w.save).value);
        }
        o := CommentOutcome(r, url, SuccessText(url), SubmittedNow, w);
    }
  }

  // --- What every run keeps -----------------------------------------------------------------------

  ghost predicate Distinct(comments: seq<Text>) {
    forall i, j :: 0 <= i < j < |comments| ==> comments[i] != comments[j]
  }

  ghost predicate NoTextTwice(threads: seq<Thread>) {
    forall t :: 0 <= t < |threads| ==> Distinct(threads[t].comments)
  }

  lemma AddKeepsTexts(threads: seq<Thread>, t: nat, text: Text, e: Effect)
    requires t < |threads| && NoTextTwice(threads)
    ensures NoTextTwice(Add(threads, t, text, e).threads) <==> e.Lost? || text !in threads[t].comments
    ensures |Add(threads, t, text, e).threads| == |threads|
  {
    var comments := threads[t].comments;
    var after := Add(threads, t, text, e).threads;
    if !e.Lost? && text in comments {
      var i :| 0 <= i < |comments| && comments[i] == text;
      assert after[t].comments[i] == after[t].comments[|comments|];
      assert !Distinct(after[t].comments);
    } else if !e.Lost? {
      assert Distinct(comments + [text]);
      forall k | 0 <= k < |after| ensures Distinct(after[k].comments) {
        assert k != t ==> after[k] == threads[k];
      }
    }
  }

  /** The outcome is said again: the second lookup misses a thread that has it already. */
  predicate Repeats(threads: seq<Thread>, t: nat, target: Label, url: Option<string>, text: Text, w: CommentWeather)
    requires t < |threads|
  {
    && target == WorkspaceLabel && w.missed && w.again == Done && !w.comment.Lost?
    && Link(threads, t, url, w).fault.None? && text in Link(threads, t, url, w).threads[t].comments
  }

  lemma PostToKeepsTexts(threads: seq<Thread>, t: nat, target: Label, url: Option<string>, text: Text, resolved: bool, w: CommentWeather)
    requires t < |threads| && NoTextTwice(threads)
    ensures NoTextTwice(PostTo(threads, t, target, url, text, resolved, w).threads) <==> !Repeats(threads, t, target, url, text, w)
  {
    if url.Some? {
      AddKeepsTexts(threads, t, UrlText(url.value), w.url);
    }
    var linked := Link(threads, t, url, w);
    if linked.fault.None? && (target == ChangeLabel || w.again == Done) {
      ConcludeKeepsTexts(linked.threads, t, text, resolved, Sees(target, w), w);
    }
  }

  lemma ConcludeKeepsTexts(threads: seq<Thread>, t: nat, text: Text, resolved: bool, seen: bool, w: CommentWeather)
    requires t < |threads| && NoTextTwice(threads)
    ensures NoTextTwice(Conclude(threads, t, text, resolved, seen, w).threads)
            <==> seen || w.comment.Lost? || text !in threads[t].comments
  {
    AddKeepsTexts(threads, t, text, w.comment);
    ResolveKeepsTexts(AddOnce(threads, t, text, seen, w.comment).threads, t, resolved);
  }

  lemma ResolveKeepsTexts(threads: seq<Thread>, t: nat, resolved: bool)
    requires t < |threads|
    ensures NoTextTwice(threads[t := threads[t].(resolved := resolved)]) <==> NoTextTwice(threads)
  {
    var after := threads[t := threads[t].(resolved := resolved)];
    assert forall k :: 0 <= k < |threads| ==> after[k].comments == threads[k].comments;
    if NoTextTwice(after) {
      forall k | 0 <= k < |threads| ensures Distinct(threads[k].comments) {
        assert Distinct(after[k].comments);
      }
    }
  }

  /** Where a comment goes, if the thread is found or can be created. */
  function Target(threads: seq<Thread>, id: Option<nat>, target: Label, w: CommentWeather): Option<(seq<Thread>, nat)> {
    var found := Lookup(threads, id, target);
    if w.lookup != Done then None
    else if found.Some? then Some((threads, found.value))
    else if w.create != Done then None
    else Some((threads + [Thread(target, [], false)], |threads|))
  }

  /** No text gets into a thread twice, unless the outcome is repeated. */
  lemma AppendKeepsTexts(threads: seq<Thread>, id: Option<nat>, target: Label, url: Option<string>, text: Text, resolved: bool, w: CommentWeather)
    requires NoTextTwice(threads)
    ensures NoTextTwice(Append(threads, id, target, url, text, resolved, w).threads) <==>
            var at := Target(threads, id, target, w); at.None? || !Repeats(at.value.0, at.value.1, target, url, text, w)
  {
    var at := Target(threads, id, target, w);
    if at.Some? {
      PostToKeepsTexts(at.value.0, at.value.1, target, url, text, resolved, w);
    }
  }

  /** Every second lookup of the run finds the thread. */
  predicate AllSeen(w: Weather) {
    !w.comments.missed && !w.failureComments.missed
  }

  /** A record of a submission is true. */
  predicate Truthful(s: State) {
    s.status == Submitted ==> s.remote
  }

  /** What no part of a run undoes. */
  ghost predicate Onward(s: State, s': State, w: Weather) {
    && (NoTextTwice(s.threads) && AllSeen(w) ==> NoTextTwice(s'.threads))
    && (s.remote ==> s'.remote && s'.requests == s.requests)
    && s.requests <= s'.requests <= s.requests + 1
  }

  lemma FailOnward(s: State, r: Record, url: Option<string>, reason: string, w: Weather)
    ensures var s' := Fail(s, r, url, reason, w);
            Onward(s, s', w) && (s'.remote, s'.requests, s'.status) == (s.remote, s.requests, Save(s.status, SubmitFailed, w.saveFailure))
  {
    if NoTextTwice(s.threads) {
      if r.hasId {
        AppendKeepsTexts(s.threads, r.threadId, WorkspaceLabel, url, FailureText(reason), false, w.failureComments);
      } else {
        AppendKeepsTexts(s.threads, None, ChangeLabel, None, FailureText(reason), false, w.failureComments);
      }
    }
  }

  lemma CommentOnward(s: State, r: Record, url: Option<string>, text: Text, outcome: Outcome, w: Weather)
    ensures var s' := Comment(s, r, url, text, outcome, w).0;
            Onward(s, s', w) && (s'.remote, s'.requests, s'.status) == (s.remote, s.requests, s.status)
  {
    if NoTextTwice(s.threads) {
      AppendKeepsTexts(s.threads, r.threadId, WorkspaceLabel, url, text, true, w.comments);
    }
  }

  /** Inside the client: what is recorded as submitted is, and an answer means the remote
      took the request. */
  lemma SessionOnward(s: State, r: Record, w: Weather)
    requires Honest(w) && s.status != Submitted
    ensures var (s', remote) := Session(s, r, w);
            && Onward(s, s', w) && (s'.status == Submitted ==> s'.remote)
            && (remote == Answered && !w.rejected ==> s'.remote)
            && (remote == Returned(AlreadySubmitted) ==> s'.remote)
            && (remote.Returned? ==> remote.outcome == AlreadySubmitted || remote.outcome == Failed)
  {
    CommentOnward(s.(status := Save(s.status, Submitted, w.save)), r, s.notes.url, AlreadyText, AlreadySubmitted, w);
    FailOnward(s.(requests := s.requests + 1, remote := w.takes), r, ThreadUrl(s.notes.url, r, w), "no request id", w);
  }

  lemma SettleOnward(s: State, r: Record, url: Option<string>, w: Weather)
    requires !w.rejected ==> s.remote
    requires s.status == Submitted ==> s.remote
    ensures var (s', outcome) := Settle(s, r, url, w);
            && Onward(s, s', w) && (s'.status == Submitted ==> s'.remote) && s'.requests == s.requests
            && (outcome == SubmittedNow ==> s'.status == Submitted)
            && outcome != AlreadySubmitted
  {
    FailOnward(s, r, url, w.reason, w);
    CommentOnward(SaveSuccess(s, url, w), r, url, SuccessText(url), SubmittedNow, w);
  }

  /** One run: the remote keeps what it has, a true record stays true and stays, at most one
      request is sent and none to a workspace already submitted, and a report of a
      submission is true. */
  lemma RunKeepsTruth(s: State, r: Record, w: Weather)
    requires Truthful(s) && r.hasId && Honest(w)
    ensures var (s', outcome) := Submit(s, r, w);
            && Truthful(s') && Onward(s, s', w)
            && (s.status == Submitted ==> s'.status == Submitted)
            && (outcome == SubmittedNow || outcome == AlreadySubmitted ==> s'.remote)
  {
    if s.status == Submitted {
      CommentOnward(s, r, s.notes.url, AlreadyText, AlreadySubmitted, w);
    } else if !w.config || !Ready(s.status) {
      FailOnward(s, r, ThreadUrl(s.notes.url, r, w), "no credentials", w);
      FailOnward(s, r, ThreadUrl(s.notes.url, r, w), "not ready", w);
    } else {
      var (s', remote) := Session(s, r, w);
      SessionOnward(s, r, w);
      FailOnward(s', r, ThreadUrl(s.notes.url, r, w), w.reason, w);
      if remote == Answered {
        SettleOnward(s', r, ThreadUrl(s.notes.url, r, w), w);
      }
    }
  }

  /** A recorded submission that its thread already tells of: a run whose second lookup misses
      the thread tells of it again. */
  lemma MissedThreadIsToldTwice(s: State, r: Record, w: Weather)
    requires Truthful(s) && NoTextTwice(s.threads) && r.hasId && s.status == Submitted && s.notes.url.None?
    requires w.comments == CommentWeather(Done, Done, Done, Done, true, Done, Done)
    ensures var t := Lookup(s.threads, r.threadId, WorkspaceLabel);
            NoTextTwice(Submit(s, r, w).0.threads) <==> t.None? || AlreadyText !in s.threads[t.value].comments
  {
    AppendKeepsTexts(s.threads, r.threadId, WorkspaceLabel, s.notes.url, AlreadyText, true, w.comments);
  }

  // --- What is recorded ---------------------------------------------------------------------------

  /** What a submission leaves beside the status: the change control, its URL and the time. */
  function Submission(s: State): (Option<string>, Option<string>, Option<string>) {
    (s.notes.change, s.notes.changeUrl, s.notes.submittedAt)
  }

  /** The run is answered by CloudVision and gets the save of that answer through. */
  predicate Lands(s: State, r: Record, w: Weather) {
    && r.hasId && Ready(s.status) && w.config && w.connect == Done && w.get == Done && !s.remote
    && w.submit == Done && w.answersId && w.wait == Done && w.close.None? && !w.rejected && !w.save.Lost?
  }

  /** A run writes the submission down exactly when it lands, and then records all of it; no
      run changes a URL that was recorded, and a landing run records one if it has one. */
  lemma RunRecordsExactly(s: State, r: Record, w: Weather)
    requires r.hasId
    ensures var s' := Submit(s, r, w).0;
            && Submission(s') == (if Lands(s, r, w)
                                  then (Or(w.change, s.notes.change), Or(w.changeUrl, s.notes.changeUrl), Some(w.time))
                                  else Submission(s))
            && s'.notes.url == (if Lands(s, r, w) then ThreadUrl(s.notes.url, r, w) else s.notes.url)
            && (s.status == Submitted ==> s'.notes == s.notes)
  {
    if r.hasId && s.status != Submitted && w.config && Ready(s.status) {
      SessionRecordsNothing(s, r, w);
    }
  }

  lemma SessionRecordsNothing(s: State, r: Record, w: Weather)
    ensures var (s', remote) := Session(s, r, w);
            && Submission(s') == Submission(s) && s'.notes.url == s.notes.url
            && (remote == Answered <==> w.connect == Done && w.get == Done && !s.remote && w.submit == Done
                                        && w.answersId && w.wait == Done && w.close.None?)
  {
  }

  // --- Any number of runs -----------------------------------------------------------------------

  function After(s: State, r: Record, runs: seq<Weather>): State {
    if runs == [] then s else Submit(After(s, r, runs[..|runs| - 1]), r, runs[|runs| - 1]).0
  }

  /** Over any retries with any failures: what is recorded as submitted is submitted and
      stays recorded, once the remote holds the submission no further request is sent, and
      no thread says a thing twice unless a second lookup missed it. */
  lemma {:induction false} RetriesKeepTruth(s: State, r: Record, runs: seq<Weather>)
    requires Truthful(s) && r.hasId && forall w :: w in runs ==> Honest(w)
    ensures var s' := After(s, r, runs);
            && Truthful(s')
            && (NoTextTwice(s.threads) && (forall w :: w in runs ==> AllSeen(w)) ==> NoTextTwice(s'.threads))
            && (s.status == Submitted ==> s'.status == Submitted)
            && (s.remote ==> s'.remote && s'.requests == s.requests)
            && s'.requests <= s.requests + |runs|
    decreases |runs|
  {
    if runs != [] {
      var before := runs[..|runs| - 1];
      RetriesKeepTruth(s, r, before);
      RunKeepsTruth(After(s, r, before), r, runs[|runs| - 1]);
    }
  }

  /** Once the remote holds the submission no run writes it down any more: none lands. */
  lemma {:induction false} NothingRecordedLater(s: State, r: Record, runs: seq<Weather>)
    requires Truthful(s) && r.hasId && s.remote && forall w :: w in runs ==> Honest(w)
    ensures Submission(After(s, r, runs)) == Submission(s) && After(s, r, runs).notes.url == s.notes.url
    decreases |runs|
  {
    if runs != [] {
      var before, w := runs[..|runs| - 1], runs[|runs| - 1];
      NothingRecordedLater(s, r, before);
      RetriesKeepTruth(s, r, before);
      RunRecordsExactly(After(s, r, before), r, w);
    }
  }

  /** So the run that brings the submission about records it or nobody does, over any number
      of retries: with its change control exactly when it lands. */
  lemma RecordedAtOnceOrNever(s: State, r: Record, w: Weather, runs: seq<Weather>)
    requires Truthful(s) && r.hasId && !s.remote && Honest(w) && forall v :: v in runs ==> Honest(v)
    requires Submit(s, r, w).0.remote
    ensures Submission(After(Submit(s, r, w).0, r, runs))
            == if Lands(s, r, w) then (Or(w.change, s.notes.change), Or(w.changeUrl, s.notes.changeUrl), Some(w.time))
               else Submission(s)
  {
    RunKeepsTruth(s, r, w);
    RunRecordsExactly(s, r, w);
    NothingRecordedLater(Submit(s, r, w).0, r, runs);
  }

  /** Without a workspace id the status is not looked at: even a recorded submission is
      replaced, whenever the save works. */
  lemma MissingIdReplacesTheRecord(s: State, r: Record, w: Weather)
    requires !r.hasId
    ensures Submit(s, r, w).0.status == SubmitFailed <==> s.status == SubmitFailed || !w.saveFailure.Lost?
    ensures Submit(s, r, w).0.requests == s.requests && Submit(s, r, w).1 == Failed
  {
    FailOnward(s, r, None, "missing workspace id", w);
  }

  // --- Repair -------------------------------------------------------------------------------------

  predicate ReachesRemote(s: State, r: Record, w: Weather) {
    r.hasId && Ready(s.status) && w.config && w.connect == Done && w.get == Done
  }

  /** After the save the run still raises what the handler around CloudVision takes for a
      failed submission, and that failure is saved. */
  predicate Undone(s: State, r: Record, w: Weather) {
    && !w.saveFailure.Lost?
    && match w.close
       case Some(f) => RemoteHandler(f)
       case None => Append(s.threads, r.threadId, WorkspaceLabel, s.notes.url, AlreadyText, true, w.comments).fault == Some(Network)
  }

  /** A record that does not say submitted although the remote is, is put right by the next
      run that reaches the remote: exactly when its save works and is not undone. */
  lemma RepairedExactly(s: State, r: Record, w: Weather)
    requires s.remote && ReachesRemote(s, r, w)
    ensures Submit(s, r, w).0.status == Submitted <==> !w.save.Lost? && !Undone(s, r, w)
    ensures Submit(s, r, w).0.requests == s.requests
  {
    var (s', remote) := Session(s, r, w);
    CommentOnward(s.(status := Save(s.status, Submitted, w.save)), r, s.notes.url, AlreadyText, AlreadySubmitted, w);
    FailOnward(s', r, ThreadUrl(s.notes.url, r, w), w.reason, w);
  }

  /** Every step is carried out and CloudVision accepts. */
  predicate Calm(w: Weather) {
    && w.config && w.connect == Done && w.get == Done && w.submit == Done && w.takes && w.answersId
    && w.wait == Done && !w.rejected && w.close.None? && w.save == Done
    && w.comments == CommentWeather(Done, Done, Done, Done, false, Done, Done)
  }

  ghost predicate Says(threads: seq<Thread>, text: Text) {
    exists t :: 0 <= t < |threads| && threads[t].resolved && text in threads[t].comments
  }

  lemma CalmAppend(threads: seq<Thread>, id: Option<nat>, url: Option<string>, text: Text, w: CommentWeather)
    requires w == CommentWeather(Done, Done, Done, Done, false, Done, Done)
    ensures var posted := Append(threads, id, WorkspaceLabel, url, text, true, w);
            posted.fault.None? && Says(posted.threads, text)
  {
    var found := Lookup(threads, id, WorkspaceLabel);
    var t := if found.Some? then found.value else |threads|;
    var posted := Append(threads, id, WorkspaceLabel, url, text, true, w);
    assert posted.threads[t].resolved && text in posted.threads[t].comments;
  }

  /** From every state that is ready or recorded as submitted, one calm run ends with the
      submission recorded, the thread resolved and saying so, and one request sent exactly
      when the remote did not hold it before. */
  lemma CalmRunSettles(s: State, r: Record, w: Weather)
    requires Truthful(s) && r.hasId && (s.status == Submitted || Ready(s.status)) && Calm(w)
    ensures var (s', outcome) := Submit(s, r, w);
            && s'.status == Submitted && s'.remote
            && outcome == (if s.remote then AlreadySubmitted else SubmittedNow)
            && s'.requests == (if s.remote then s.requests else s.requests + 1)
            && Says(s'.threads, if s.remote then AlreadyText else SuccessText(ThreadUrl(s.notes.url, r, w)))
  {
    CalmAppend(s.threads, r.threadId, s.notes.url, AlreadyText, w.comments);
    CalmAppend(s.threads, r.threadId, ThreadUrl(s.notes.url, r, w), SuccessText(ThreadUrl(s.notes.url, r, w)), w.comments);
  }

  /** The input: CloudVision accepts, the save fails, and an undisturbed retry records the
      submission without its change control, for good. */
  lemma SubmittedWithoutItsChange(s: State, r: Record, w: Weather, f: Fault, retry: Weather, runs: seq<Weather>)
    requires Truthful(s) && r.hasId && !s.remote && Ready(s.status) && Calm(w) && Calm(retry)
    requires forall v :: v in runs ==> Honest(v)
    ensures var mid := Submit(s, r, w.(save := Lost(f))).0;
            var end := After(Submit(mid, r, retry).0, r, runs);
            end.status == Submitted && end.remote && Submission(end) == Submission(s)
  {
    var lost := w.(save := Lost(f));
    RunRecordsExactly(s, r, lost);
    var mid := Submit(s, r, lost).0;
    CalmRunSettles(mid, r, retry);
    RunRecordsExactly(mid, r, retry);
    var again := Submit(mid, r, retry).0;
    RetriesKeepTruth(again, r, runs);
    NothingRecordedLater(again, r, runs);
  }

  /** A workspace that is not ready is not submitted by a run; but the run saves a failure,
      which is a ready status, so that a retry does submit it. */
  lemma NotReadyIsSubmittedOnRetry(s: State, r: Record, w: Weather, retry: Weather)
    requires Truthful(s) && r.hasId && !s.remote && s.status.OtherStatus? && w.config && Calm(retry)
    ensures var (mid, outcome) := Submit(s, r, w);
            && outcome == Failed && mid.requests == s.requests && !mid.remote
            && (mid.status == SubmitFailed <==> !w.saveFailure.Lost?)
            && (!w.saveFailure.Lost? ==> Submit(mid, r, retry).0.requests == s.requests + 1
                                         && Submit(mid, r, retry).0.status == Submitted)
  {
    var mid := Submit(s, r, w).0;
    FailOnward(s, r, ThreadUrl(s.notes.url, r, w), "not ready", w);
    if !w.saveFailure.Lost? {
      CalmRunSettles(mid, r, retry);
    }
  }

  /** The repair can be undone within its own run: a time-out while the comment is looked up
      passes the handler around the comment and reaches the one around CloudVision, which
      saves a failure over the submission just saved. */
  lemma RepairCanBeUndone(s: State, r: Record)
    requires s.remote && s.status == SubmitFailed && r.hasId
    ensures exists w :: Honest(w) && ReachesRemote(s, r, w) && w.save == Done
              && Submit(s, r, w).0.status == SubmitFailed && Submit(s, r, w).1 == Failed
  {
    var fine := CommentWeather(Done, Done, Done, Done, false, Done, Done);
    var w := Weather(true, Done, Done, Done, true, true, Done, false, None, "time-out", None, None, "now",
                     Done, fine.(lookup := Lost(Network)), Done, fine);
    RepairedExactly(s, r, w);
    var s' := Session(s, r, w).0;
    FailOnward(s', r, ThreadUrl(s.notes.url, r, w), w.reason, w);
    assert Submit(s, r, w).0.status == SubmitFailed;
  }

  // --- What a run says, and where ---------------------------------------------------------------

  lemma {:induction false} FirstLabelledIs(threads: seq<Thread>, target: Label)
    ensures match FirstLabelled(threads, target)
            case None => forall k :: 0 <= k < |threads| ==> threads[k].target != target
            case Some(t) => threads[t].target == target && forall k :: 0 <= k < t ==> threads[k].target != target
  {
    if threads != [] { FirstLabelledIs(threads[..|threads| - 1], target); }
  }

  /** The thread of the recorded id when there is one, else the first with the label, else a
      new one behind the others. */
  predicate Chosen(threads: seq<Thread>, id: Option<nat>, target: Label, t: nat) {
    if id.Some? && id.value < |threads| then t == id.value
    else if t < |threads| then threads[t].target == target && forall k :: 0 <= k < t ==> threads[k].target != target
    else t == |threads| && forall k :: 0 <= k < t ==> threads[k].target != target
  }

  /** Where no step of it fails, an outcome is told in one thread: the URL before it, neither
      of them a second time, and the thread closed or opened as asked. */
  lemma ToldInOneThread(threads: seq<Thread>, id: Option<nat>, target: Label, url: Option<string>, text: Text, resolved: bool,
                        w: CommentWeather) returns (t: nat)
    requires w == CommentWeather(Done, Done, Done, Done, false, Done, Done)
    ensures Chosen(threads, id, target, t)
    ensures var posted, was := Append(threads, id, target, url, text, resolved, w), if t < |threads| then threads[t] else Thread(target, [], false);
            var linked := was.comments + if url.Some? && UrlText(url.value) !in was.comments then [UrlText(url.value)] else [];
            && posted.fault == None && t < |posted.threads| == (if t < |threads| then |threads| else t + 1)
            && posted.threads[t] == Thread(was.target, linked + (if text in linked then [] else [text]), resolved)
            && forall k :: 0 <= k < |threads| && k != t ==> posted.threads[k] == threads[k]
  {
    FirstLabelledIs(threads, target);
    var found := Lookup(threads, id, target);
    t := if found.Some? then found.value else |threads|;
    ToldInThread(if found.Some? then threads else threads + [Thread(target, [], false)], t, target, url, text, resolved, w);
  }

  lemma ToldInThread(threads: seq<Thread>, t: nat, target: Label, url: Option<string>, text: Text, resolved: bool, w: CommentWeather)
    requires t < |threads| && w == CommentWeather(Done, Done, Done, Done, false, Done, Done)
    ensures var was := threads[t].comments;
            var linked := was + if url.Some? && UrlText(url.value) !in was then [UrlText(url.value)] else [];
            PostTo(threads, t, target, url, text, resolved, w)
            == Posted(threads[t := Thread(threads[t].target, linked + (if text in linked then [] else [text]), resolved)], None)
  {
    var was := threads[t].comments;
    assert was + [] == was;
    var linked := was + if url.Some? && UrlText(url.value) !in was then [UrlText(url.value)] else [];
    assert linked + [] == linked;
    assert Link(threads, t, url, w) == Posted(threads[t := threads[t].(comments := linked)], None) by {
      assert threads[t := threads[t]] == threads;
    }
  }

  /** A failure is on record with its reason and time, and its thread is open and tells it. */
  ghost predicate FailureTold(s: State, reason: string, time: string) {
    && s.status == SubmitFailed && s.notes.error == Some(reason) && s.notes.attemptedAt == Some(time)
    && exists t :: 0 <= t < |s.threads| && !s.threads[t].resolved && FailureText(reason) in s.threads[t].comments
  }

  lemma FailTells(s: State, r: Record, url: Option<string>, reason: string, w: Weather)
    requires !w.saveFailure.Lost? && w.failureComments == CommentWeather(Done, Done, Done, Done, false, Done, Done)
    ensures FailureTold(Fail(s, r, url, reason, w), reason, w.time)
  {
    if r.hasId {
      var t := ToldInOneThread(s.threads, r.threadId, WorkspaceLabel, url, FailureText(reason), false, w.failureComments);
      assert !Fail(s, r, url, reason, w).threads[t].resolved;
    } else {
      var t := ToldInOneThread(s.threads, None, ChangeLabel, None, FailureText(reason), false, w.failureComments);
      assert !Fail(s, r, url, reason, w).threads[t].resolved;
    }
  }

  /** What the CloudVision part raises: entering the client; else leaving it, which covers
      whatever was raised inside; else the first of its steps, or a comment that gets past
      its own handler. */
  function RaisedInside(s: State, r: Record, w: Weather): Option<Fault> {
    var told := Append(s.threads, r.threadId, WorkspaceLabel, s.notes.url, AlreadyText, true, w.comments).fault;
    if w.connect != Done then Some(w.connect.fault)
    else if w.close.Some? then w.close
    else if w.get != Done then Some(w.get.fault)
    else if s.remote then (if told in {Some(Network), Some(Foreign)} then told else None)
    else if w.submit != Done then Some(w.submit.fault)
    else if !w.answersId || w.wait == Done then None
    else Some(w.wait.fault)
  }

  /** How a run ends, in every weather. Of what the CloudVision part raises a run-time, value,
      network or CloudVision error is a failure, and the rest escapes; of what a comment
      raises an attribute, key, type, run-time or value error is passed over. */
  lemma RunEnds(s: State, r: Record, w: Weather)
    ensures var outcome, raised := Submit(s, r, w).1, RaisedInside(s, r, w);
            var already := Append(s.threads, r.threadId, WorkspaceLabel, s.notes.url, AlreadyText, true, w.comments).fault;
            var url := if s.notes.url.Some? then s.notes.url else r.configUrl;
            var success := Append(s.threads, r.threadId, WorkspaceLabel, url, SuccessText(url), true, w.comments).fault;
            outcome ==
            if !r.hasId then Failed
            else if s.status == Submitted then
              if already in {Some(Network), Some(Foreign)} then Escaped(already.value) else AlreadySubmitted
            else if !w.config || s.status !in {Built, SubmitFailed} then Failed
            else if raised.Some? then
              if raised.value == Plain || raised.value == Network then Failed else Escaped(raised.value)
            else if s.remote then AlreadySubmitted
            else if !w.answersId || w.rejected then Failed
            else if w.save != Done then Escaped(w.save.fault)
            else if success in {Some(Network), Some(Foreign)} then Escaped(success.value)
            else SubmittedNow
  {
    if r.hasId && s.status == Submitted {
      AlreadyEnds(s, r, w);
    } else if r.hasId && w.config && Ready(s.status) {
      SessionEnds(s, r, w);
      AnsweredThreads(s, r, w);
      SettleEnds(Session(s, r, w).0, r, ThreadUrl(s.notes.url, r, w), w);
    }
  }

  lemma AlreadyEnds(s: State, r: Record, w: Weather)
    ensures var told := Append(s.threads, r.threadId, WorkspaceLabel, s.notes.url, AlreadyText, true, w.comments).fault;
            Already(s, r, w).1 == if told in {Some(Network), Some(Foreign)} then Escaped(told.value) else AlreadySubmitted
  {
    CommentEnds(s.(status := Save(s.status, Submitted, w.save)), r, s.notes.url, AlreadyText, AlreadySubmitted, w);
  }

  lemma CommentEnds(s: State, r: Record, url: Option<string>, text: Text, outcome: Outcome, w: Weather)
    ensures var told := Append(s.threads, r.threadId, WorkspaceLabel, url, text, true, w.comments).fault;
            Comment(s, r, url, text, outcome, w).1 == if told in {Some(Network), Some(Foreign)} then Escaped(told.value) else outcome
  {
    PassedOver(Append(s.threads, r.threadId, WorkspaceLabel, url, text, true, w.comments).fault);
  }

  lemma PassedOver(fault: Option<Fault>)
    ensures fault.None? || CommentHandler(fault.value) <==> fault !in {Some(Network), Some(Foreign)}
  {
  }

  lemma SessionEnds(s: State, r: Record, w: Weather)
    ensures var raised := RaisedInside(s, r, w);
            Session(s, r, w).1 ==
            if raised.Some? then Fell(raised.value)
            else if s.remote then Returned(AlreadySubmitted)
            else if !w.answersId then Returned(Failed)
            else Answered
  {
  }

  lemma AnsweredThreads(s: State, r: Record, w: Weather)
    ensures Session(s, r, w).1 == Answered ==> Session(s, r, w).0.threads == s.threads
  {
  }

  lemma SettleEnds(s: State, r: Record, url: Option<string>, w: Weather)
    ensures var told := Append(s.threads, r.threadId, WorkspaceLabel, url, SuccessText(url), true, w.comments).fault;
            Settle(s, r, url, w).1 ==
            if w.rejected then Failed
            else if w.save != Done then Escaped(w.save.fault)
            else if told in {Some(Network), Some(Foreign)} then Escaped(told.value)
            else SubmittedNow
  {
    CommentEnds(SaveSuccess(s, url, w), r, url, SuccessText(url), SubmittedNow, w);
  }

  /** Whenever a run fails, and its own saving and telling is carried out, the failure is
      recorded and told with the reason of the branch that failed. */
  lemma FailedRunTells(s: State, r: Record, w: Weather)
    requires Submit(s, r, w).1 == Failed
    requires !w.saveFailure.Lost? && w.failureComments == CommentWeather(Done, Done, Done, Done, false, Done, Done)
    ensures FailureTold(Submit(s, r, w).0,
                        if !r.hasId then "missing workspace id"
                        else if !w.config then "no credentials"
                        else if s.status !in {Built, SubmitFailed} then "not ready"
                        else if RaisedInside(s, r, w).None? && !w.answersId then "no request id"
                        else w.reason,
                        w.time)
  {
    RunEnds(s, r, w);
    var url := ThreadUrl(s.notes.url, r, w);
    if !r.hasId {
      FailTells(s, r, None, "missing workspace id", w);
    } else if !w.config {
      FailTells(s, r, url, "no credentials", w);
    } else if !Ready(s.status) {
      FailTells(s, r, url, "not ready", w);
    } else {
      FailedSessionTells(s, r, w);
    }
  }

  lemma FailedSessionTells(s: State, r: Record, w: Weather)
    requires r.hasId && w.config && Ready(s.status) && Submit(s, r, w).1 == Failed
    requires !w.saveFailure.Lost? && w.failureComments == CommentWeather(Done, Done, Done, Done, false, Done, Done)
    ensures FailureTold(Submit(s, r, w).0, if RaisedInside(s, r, w).None? && !w.answersId then "no request id" else w.reason, w.time)
  {
    var url := ThreadUrl(s.notes.url, r, w);
    SessionEnds(s, r, w);
    if Session(s, r, w).1 == Returned(Failed) {
      NoRequestId(s, r, w);
      FailTells(s.(requests := s.requests + 1, remote := w.takes), r, url, "no request id", w);
    } else {
      FailTells(Session(s, r, w).0, r, url, w.reason, w);
    }
  }

  lemma NoRequestId(s: State, r: Record, w: Weather)
    requires Session(s, r, w).1 == Returned(Failed)
    ensures Session(s, r, w).0
            == Fail(s.(requests := s.requests + 1, remote := w.takes), r, ThreadUrl(s.notes.url, r, w), "no request id", w)
  {
    SessionEnds(s, r, w);
  }
}
