/**
 The bulk-refresh dialog for a fixed action and target: resolve a scope, confirm, post it
 once, then poll the job.  The dialog's promise is about its traffic, so the system keeps
 a log of what was resolved, posted and answered, and the theorems are about that log.
 */
module BulkRefresh {
  import opened InFlight
  import opened Options

  datatype Phase = ScopeLoading | Confirm | Submitting | Progress | Error

  /** The UIDs of `scope.targets`, in order. */
  datatype Scope = Scope(uids: seq<string>)

  datatype Job = Job(id: string, completed: bool)

  /** Why a POST was refused; `existing` is the job id in the error's extra, when it is a string. */
  datatype Refusal = ScopeChanged | ActiveJobExists(existing: Option<string>) | OtherReason

  datatype Island = Island(
    phase: Phase,
    error: Option<string>,
    scope: Option<Scope>,
    jobId: Option<string>,
    job: Option<Job>)

  /** JavaScript truthiness of an optional string. */
  predicate Truthy(s: Option<string>) {
    s.Some? && s.value != ""
  }

  // ---------------------------------------------------------------- the callbacks

  function ScopeArrived(v: Island, scope: Option<Scope>): Island {
    v.(scope := scope, phase := Confirm)
  }

  function ScopeFailed(v: Island, message: string): Island {
    v.(error := Some(message), phase := Error)
  }

  /** The guard at the top of `submit`. */
  predicate MaySubmit(v: Island) {
    v.scope.Some? && v.phase == Confirm
  }

  function SubmitStarts(v: Island): Island {
    v.(phase := Submitting, error := None)
  }

  function PostAccepted(v: Island, job: Option<string>): Island {
    v.(jobId := job, phase := Progress)
  }

  function PostRefused(v: Island, why: Refusal, message: string): Island {
    if why.ScopeChanged? then v.(phase := ScopeLoading)
    else if why.ActiveJobExists? && Truthy(why.existing) then v.(jobId := why.existing, phase := Progress)
    else v.(error := Some(message), phase := Error)
  }

  /** Whether the polling effect does anything when it runs. */
  predicate Polls(v: Island) {
    v.phase == Progress && Truthy(v.jobId)
  }

  function PollArrived(v: Island, job: Option<Job>): Island {
    v.(job := job)
  }

  function PollFailed(v: Island, message: string): Island {
    v.(error := Some(message))
  }

  predicate Completed(job: Option<Job>) {
    job.Some? && job.value.completed
  }

  class Dialog {
    var phase: Phase
    var error: Option<string>
    var scope: Option<Scope>
    var jobId: Option<string>
    var job: Option<Job>

    ghost function Model(): Island
      reads this
    {
      Island(phase, error, scope, jobId, job)
    }

    constructor ()
      ensures Model() == Island(ScopeLoading, None, None, None, None)
    {
      phase, error, scope, jobId, job := ScopeLoading, None, None, None, None;
    }

    /** The load effect after its await, and `submit` after the second one. */
    method ScopeReturned(cancelled: bool, res: Option<Scope>)
      modifies this
      ensures Model() == if cancelled then old(Model()) else ScopeArrived(old(Model()), res)
    {
      if !cancelled {
        scope := res;
        phase := Confirm;
      }
    }

    method ScopeThrew(cancelled: bool, message: string)
      modifies this
      ensures Model() == if cancelled then old(Model()) else ScopeFailed(old(Model()), message)
    {
      if !cancelled {
        error := Some(message);
        phase := Error;
      }
    }

    /** `submit` up to its POST: the UIDs it sends, or None when the guard turned it away. */
    method Submit() returns (post: Option<seq<string>>)
      modifies this
      ensures post.Some? <==> MaySubmit(old(Model()))
      ensures post.Some? ==> post.value == old(scope).value.uids && Model() == SubmitStarts(old(Model()))
      ensures post.None? ==> Model() == old(Model())
    {
      if scope.None? || phase != Confirm {
        return None;
      }
      phase := Submitting;
      error := None;
      post := Some(scope.value.uids);
    }

    method PostReturned(res: Option<string>)
      modifies this
      ensures Model() == PostAccepted(old(Model()), res)
    {
      jobId := res;
      phase := Progress;
    }

    /** Returns whether `submit` goes on to resolve the scope again. */
    method PostThrew(why: Refusal, message: string) returns (again: bool)
      modifies this
      ensures Model() == PostRefused(old(Model()), why, message)
      ensures again <==> why.ScopeChanged?
    {
      if why == ScopeChanged {
        phase := ScopeLoading;
        return true;
      }
      if why.ActiveJobExists? {
        if Truthy(why.existing) {
          jobId := why.existing;
          phase := Progress;
          return false;
        }
      }
      error := Some(message);
      phase := Error;
      again := false;
    }

    /** One poll after its await; returns whether it arms the next timer. */
    method PollReturned(cancelled: bool, res: Option<Job>) returns (again: bool)
      modifies this
      ensures Model() == if cancelled then old(Model()) else PollArrived(old(Model()), res)
      ensures again <==> !cancelled && !Completed(res)
    {
      if cancelled {
        return false;
      }
      job := res;
      if Completed(job) {
        return false;
      }
      again := true;
    }
  }

  // ---------------------------------------------------------------- the whole system

  /** One run of the polling effect: requests out, timers armed, and its `cancelled` flag. */
  datatype Session = Session(out: nat, armed: nat, cancelled: bool)

  datatype Entry =
    | Resolved(scope: Option<Scope>)
    | ResolveFailed(message: string)
    | Posted(uids: seq<string>)
    | Accepted(started: Option<string>)
    | Rejected(why: Refusal, message: string)

  datatype System = System(
    view: Island,
    mounted: bool,
    loading: bool,
    posts: Flights<seq<string>>,
    rescopes: Flights<()>,
    polledFor: Option<(Phase, Option<string>)>,
    sessions: seq<Session>,
    polls: seq<Option<Job>>,
    log: seq<Entry>)

  datatype Event =
    | LoadReply(scope: Option<Scope>)
    | LoadFails(message: string)
    | ClickRefresh
    | PostReply(post: nat, started: Option<string>)
    | PostFails(post: nat, why: Refusal, message: string)
    | RescopeReply(rescope: nat, scope: Option<Scope>)
    | RescopeFails(rescope: nat, message: string)
    | RunPollEffect
    | PollReply(session: nat, job: Option<Job>)
    | PollFails(session: nat, message: string)
    | PollTimer(session: nat)
    | Unmount

  function Start(): System {
    System(Island(ScopeLoading, None, None, None, None), true, true, Flights([], {}), Flights([], {}), None, [], [], [])
  }

  /** The cleanup of the newest run of the polling effect. */
  function Cancelled(sessions: seq<Session>): (r: seq<Session>)
    ensures |r| == |sessions|
  {
    if sessions == [] then []
    else sessions[|sessions| - 1 := sessions[|sessions| - 1].(armed := 0, cancelled := true)]
  }

  function Step(s: System, e: Event): System {
    match e
    case LoadReply(scope) =>
      if !s.loading then s
      else if !s.mounted then s.(loading := false)
      else s.(loading := false, view := ScopeArrived(s.view, scope), log := s.log + [Resolved(scope)])
    case LoadFails(message) =>
      if !s.loading then s
      else if !s.mounted then s.(loading := false)
      else s.(loading := false, view := ScopeFailed(s.view, message), log := s.log + [ResolveFailed(message)])
    case ClickRefresh =>
      if !s.mounted || !MaySubmit(s.view) then s
      else s.(view := SubmitStarts(s.view), posts := s.posts.Send(s.view.scope.value.uids),
              log := s.log + [Posted(s.view.scope.value.uids)])
    case PostReply(i, started) =>
      if i !in s.posts.open then s
      else s.(view := PostAccepted(s.view, started), posts := s.posts.Settle(i), log := s.log + [Accepted(started)])
    case PostFails(i, why, message) =>
      if i !in s.posts.open then s
      else s.(view := PostRefused(s.view, why, message), posts := s.posts.Settle(i),
              rescopes := if why.ScopeChanged? then s.rescopes.Send(()) else s.rescopes,
              log := s.log + [Rejected(why, message)])
    case RescopeReply(i, scope) =>
      if i !in s.rescopes.open then s
      else s.(view := ScopeArrived(s.view, scope), rescopes := s.rescopes.Settle(i), log := s.log + [Resolved(scope)])
    case RescopeFails(i, message) =>
      if i !in s.rescopes.open then s
      else s.(view := ScopeFailed(s.view, message), rescopes := s.rescopes.Settle(i), log := s.log + [ResolveFailed(message)])
    case RunPollEffect =>
      if !s.mounted || s.polledFor == Some((s.view.phase, s.view.jobId)) then s
      else s.(polledFor := Some((s.view.phase, s.view.jobId)),
              sessions := Cancelled(s.sessions) + if Polls(s.view) then [Session(1, 0, false)] else [])
    case PollReply(k, job) =>
      if k >= |s.sessions| || s.sessions[k].out == 0 then s
      else
        var p := s.sessions[k];
        var landed := p.(out := p.out - 1);
        if p.cancelled then s.(sessions := s.sessions[k := landed])
        else s.(view := PollArrived(s.view, job), polls := s.polls + [job],
                sessions := s.sessions[k := if Completed(job) then landed else landed.(armed := p.armed + 1)])
    case PollFails(k, message) =>
      if k >= |s.sessions| || s.sessions[k].out == 0 then s
      else
        var p := s.sessions[k];
        var landed := p.(out := p.out - 1);
        if p.cancelled then s.(sessions := s.sessions[k := landed])
        else s.(view := PollFailed(s.view, message), sessions := s.sessions[k := landed.(armed := p.armed + 1)])
    case PollTimer(k) =>
      if k >= |s.sessions| || s.sessions[k].armed == 0 then s
      else s.(sessions := s.sessions[k := s.sessions[k].(armed := s.sessions[k].armed - 1, out := s.sessions[k].out + 1)])
    case Unmount =>
      if !s.mounted then s else s.(mounted := false, sessions := Cancelled(s.sessions))
  }

  function Run(es: seq<Event>): System {
    if es == [] then Start() else Step(Run(es[..|es| - 1]), es[|es| - 1])
  }

  // ---------------------------------------------------------------- invariants

  /** The entry that may come next in the log, or whether the log may end there for good. */
  ghost predicate MayFollow(last: Option<Entry>, next: Entry) {
    match last
    case None => next.Resolved? || next.ResolveFailed?
    case Some(Resolved(scope)) => scope.Some? && next == Posted(scope.value.uids)
    case Some(Posted(_)) => next.Accepted? || next.Rejected?
    case Some(Rejected(why, _)) => why.ScopeChanged? && (next.Resolved? || next.ResolveFailed?)
    case Some(Accepted(_)) => false
    case Some(ResolveFailed(_)) => false
  }

  function Last(log: seq<Entry>): Option<Entry> {
    if log == [] then None else Some(log[|log| - 1])
  }

  ghost predicate WellFormed(log: seq<Entry>) {
    forall k :: 0 <= k < |log| ==> MayFollow(Last(log[..k]), log[k])
  }

  /** The phase, the scope held and what is in flight are all told by the last log entry. */
  ghost predicate Told(s: System) {
    && s.posts.Valid() && s.rescopes.Valid()
    && match Last(s.log)
       case None =>
         s.view.phase == ScopeLoading && s.posts.open == {} && s.rescopes.open == {} && (s.mounted ==> s.loading)
       case Some(Resolved(scope)) =>
         s.view.phase == Confirm && s.view.scope == scope && s.posts.open == {} && s.rescopes.open == {} && !s.loading
       case Some(Posted(uids)) =>
         s.view.phase == Submitting && s.view.error == None && s.posts.sent != [] && s.posts.open == {|s.posts.sent| - 1}
         && s.posts.sent[|s.posts.sent| - 1] == uids && s.rescopes.open == {} && !s.loading
       case Some(Rejected(why, message)) =>
         !s.loading && s.posts.open == {}
         && (if why.ScopeChanged? then
               s.view.phase == ScopeLoading && s.rescopes.sent != [] && s.rescopes.open == {|s.rescopes.sent| - 1}
             else
               s.rescopes.open == {}
               && (if why.ActiveJobExists? && why.existing != None && why.existing != Some("") then
                     s.view.phase == Progress && s.view.jobId == why.existing
                   else s.view.phase == Error && s.view.error == Some(message)))
       case Some(Accepted(started)) =>
         s.view.phase == Progress && s.view.jobId == started && s.posts.open == {} && s.rescopes.open == {} && !s.loading
       case Some(ResolveFailed(message)) =>
         s.view.phase == Error && s.view.error == Some(message) && s.posts.open == {} && s.rescopes.open == {} && !s.loading
  }

  ghost predicate TrafficInv(s: System) {
    WellFormed(s.log) && Told(s)
  }

  /** At most one polling session is ever opened, and it is a single chain. */
  ghost predicate PollInv(s: System) {
    && |s.sessions| <= 1
    && (s.sessions != [] ==> s.view.phase == Progress && s.view.jobId != None && s.view.jobId != Some("")
                             && s.polledFor == Some((s.view.phase, s.view.jobId)))
    && (s.sessions == [] && s.polledFor.Some? ==> !(s.polledFor.value.0 == Progress && s.polledFor.value.1 != None && s.polledFor.value.1 != Some("")))
    && (s.sessions == [] ==> s.polls == [])
    && s.view.job == (if s.polls == [] then None else s.polls[|s.polls| - 1])
    && (forall k :: 0 <= k < |s.sessions| ==>
          && s.sessions[k].out + s.sessions[k].armed <= 1
          && (s.sessions[k].cancelled <==> !s.mounted)
          && (s.sessions[k].cancelled ==> s.sessions[k].armed == 0)
          && (Completed(s.view.job) ==> s.sessions[k].out + s.sessions[k].armed == 0)
          && (s.mounted && !Completed(s.view.job) ==> s.sessions[k].out + s.sessions[k].armed == 1))
  }

  lemma Append(log: seq<Entry>, next: Entry)
    requires WellFormed(log) && MayFollow(Last(log), next)
    ensures WellFormed(log + [next])
  {
    var grown := log + [next];
    forall k | 0 <= k < |grown| ensures MayFollow(Last(grown[..k]), grown[k]) {
      assert grown[..k] == log[..k];
      assert log[..|log|] == log;
    }
  }

  /** What a step writes in the log, if it writes anything, may follow what is there. */
  lemma StepLogs(s: System, e: Event)
    requires Told(s)
    ensures var t := Step(s, e);
            t.log == s.log || (|t.log| == |s.log| + 1 && t.log == s.log + [t.log[|s.log|]]
                               && MayFollow(Last(s.log), t.log[|s.log|]))
  {
    match e
    case PostReply(_, _) =>
    case PostFails(_, _, _) =>
    case _ =>
  }

  lemma RefusalKeepsTold(s: System, i: nat, why: Refusal, message: string)
    requires Told(s)
    ensures Told(Step(s, PostFails(i, why, message)))
  {
  }

  lemma ReplyKeepsTold(s: System, e: Event)
    requires Told(s) && (e.RescopeReply? || e.RescopeFails? || e.PostReply? || e.ClickRefresh?)
    ensures Told(Step(s, e))
  {
    match e
    case ClickRefresh =>
    case RescopeReply(_, _) =>
    case RescopeFails(_, _) =>
    case PostReply(_, _) =>
  }

  lemma LoadKeepsTold(s: System, e: Event)
    requires Told(s) && (e.LoadReply? || e.LoadFails?)
    ensures Told(Step(s, e))
  {
  }

  /** A poll that is not cancelled belongs to the progress phase, where its errors are its own. */
  lemma PollKeepsTold(s: System, e: Event)
    requires Told(s) && PollInv(s) && (e.PollReply? || e.PollFails? || e.PollTimer? || e.RunPollEffect? || e.Unmount?)
    ensures Told(Step(s, e))
  {
    if e.PollFails? && e.session < |s.sessions| && s.sessions[e.session].out > 0 && !s.sessions[e.session].cancelled {
      assert s.view.phase == Progress;
    }
  }

  lemma StepKeepsTold(s: System, e: Event)
    requires Told(s) && PollInv(s)
    ensures Told(Step(s, e))
  {
    match e
    case PostFails(i, why, message) => RefusalKeepsTold(s, i, why, message);
    case PostReply(_, _) => ReplyKeepsTold(s, e);
    case RescopeReply(_, _) => ReplyKeepsTold(s, e);
    case RescopeFails(_, _) => ReplyKeepsTold(s, e);
    case ClickRefresh => ReplyKeepsTold(s, e);
    case LoadReply(_) => LoadKeepsTold(s, e);
    case LoadFails(_) => LoadKeepsTold(s, e);
    case _ => PollKeepsTold(s, e);
  }

  lemma StepKeepsTraffic(s: System, e: Event)
    requires TrafficInv(s) && PollInv(s)
    ensures TrafficInv(Step(s, e))
  {
    StepKeepsTold(s, e);
    StepLogs(s, e);
    var t := Step(s, e);
    if t.log != s.log {
      Append(s.log, t.log[|s.log|]);
    }
  }

  lemma PollKeepsPolling(s: System, e: Event)
    requires PollInv(s) && (e.PollReply? || e.PollFails? || e.PollTimer?)
    ensures PollInv(Step(s, e))
  {
    match e
    case PollReply(_, _) =>
    case PollFails(_, _) =>
    case PollTimer(_) =>
  }

  lemma StepKeepsPolling(s: System, e: Event)
    requires TrafficInv(s) && PollInv(s)
    ensures PollInv(Step(s, e))
  {
    match e
    case PollReply(_, _) => PollKeepsPolling(s, e);
    case PollFails(_, _) => PollKeepsPolling(s, e);
    case PollTimer(_) => PollKeepsPolling(s, e);
    case RunPollEffect =>
    case Unmount =>
    case _ =>
  }

  lemma {:induction false} Invariant(es: seq<Event>)
    ensures TrafficInv(Run(es)) && PollInv(Run(es))
  {
    if es != [] {
      Invariant(es[..|es| - 1]);
      StepKeepsTraffic(Run(es[..|es| - 1]), es[|es| - 1]);
      StepKeepsPolling(Run(es[..|es| - 1]), es[|es| - 1]);
    }
  }

  // ---------------------------------------------------------------- what the dialog promises

  /** At most one POST is ever outstanding, and none while a scope is being resolved. */
  lemma OneRequestAtATime(es: seq<Event>)
    ensures |Run(es).posts.open| + |Run(es).rescopes.open| <= 1
    ensures Run(es).loading ==> Run(es).posts.open == {} == Run(es).rescopes.open
  {
    Invariant(es);
  }

  /** Every POST is preceded at once by the resolution whose UIDs it sends. */
  lemma PostSendsResolvedScope(es: seq<Event>, k: nat)
    requires k < |Run(es).log| && Run(es).log[k].Posted?
    ensures k > 0 && Run(es).log[k - 1] == Resolved(Some(Scope(Run(es).log[k].uids)))
  {
    Invariant(es);
    var log := Run(es).log;
    assert MayFollow(Last(log[..k]), log[k]);
  }

  lemma ClickIsGuarded(s: System)
    requires Told(s)
    ensures s.mounted && MaySubmit(s.view) <==> s.mounted && Last(s.log).Some? && Last(s.log).value.Resolved? && Last(s.log).value.scope.Some?
    ensures MaySubmit(s.view) ==> s.view.scope == Last(s.log).value.scope
  {
  }

  /** And a scope just resolved is posted by a click, while the dialog is mounted; no other click does anything. */
  lemma ClickPostsResolvedScope(es: seq<Event>)
    ensures var s, t := Run(es), Step(Run(es), ClickRefresh);
            if s.mounted && s.log != [] && s.log[|s.log| - 1].Resolved? && s.log[|s.log| - 1].scope.Some? then
              t.log == s.log + [Posted(s.log[|s.log| - 1].scope.value.uids)]
            else t == s
  {
    Invariant(es);
    ClickIsGuarded(Run(es));
  }

  /** Success is the last thing in any log, so at most one POST ever succeeds. */
  lemma SuccessIsFinal(es: seq<Event>, k: nat)
    requires k < |Run(es).log| && Run(es).log[k].Accepted?
    ensures k == |Run(es).log| - 1
  {
    Invariant(es);
    var log := Run(es).log;
    assert k + 1 < |log| ==> !MayFollow(Last(log[..k + 1]), log[k + 1]);
  }

  /** After `scope_changed` no POST comes before a new scope has been resolved. */
  lemma {:induction false} ScopeChangedNeedsNewScope(es: seq<Event>, i: nat, k: nat)
    requires i < k < |Run(es).log|
    requires Run(es).log[i].Rejected? && Run(es).log[i].why == ScopeChanged && Run(es).log[k].Posted?
    ensures exists j :: i < j < k && Run(es).log[j].Resolved?
  {
    PostSendsResolvedScope(es, k);
    assert Run(es).log[k - 1].Resolved?;
  }

  /** `progress` and `error` are never left, and a job id in progress is never replaced. */
  lemma FinalPhasesAbsorb(es: seq<Event>, e: Event)
    requires Run(es).view.phase == Progress || Run(es).view.phase == Error
    ensures Step(Run(es), e).view.phase == Run(es).view.phase
    ensures Step(Run(es), e).view.jobId == Run(es).view.jobId
    ensures Step(Run(es), e).log == Run(es).log
  {
    Invariant(es);
  }

  /** One polling session at most, never both a request out and a timer armed. */
  lemma PollingIsOneChain(es: seq<Event>)
    ensures var s := Run(es);
            && |s.sessions| <= 1
            && (forall p :: p in s.sessions ==> p.out + p.armed <= 1)
            // alive as long as it is on screen and unfinished
            && (forall p :: p in s.sessions && s.mounted && !Completed(s.view.job) ==> p.out + p.armed == 1)
  {
    Invariant(es);
  }

  /** A job followed on screen is polled as soon as the effect runs, and with it one poll is out. */
  lemma FollowedJobIsPolled(es: seq<Event>)
    requires Run(es).mounted && Run(es).view.phase == Progress
    requires Run(es).view.jobId != None && Run(es).view.jobId != Some("") && Run(es).sessions == []
    ensures var t := Step(Run(es), RunPollEffect);
            |t.sessions| == 1 && t.sessions[0].out == 1 && t.sessions[0].armed == 0 && !t.sessions[0].cancelled
  {
    Invariant(es);
  }

  /** What is on screen of the job is what the last poll brought that was not cancelled, and nothing before the first. */
  lemma LastPollIsShown(es: seq<Event>)
    ensures Run(es).view.job == if Run(es).polls == [] then None else Run(es).polls[|Run(es).polls| - 1]
  {
    Invariant(es);
  }

  /** A poll's answer counts as brought, and a failure is said, exactly when the poll was out and not cancelled. */
  lemma PollsAreBrought(s: System, k: nat, job: Option<Job>, message: string)
    ensures var heard := k < |s.sessions| && s.sessions[k].out > 0 && !s.sessions[k].cancelled;
            && Step(s, PollReply(k, job)).polls == (if heard then s.polls + [job] else s.polls)
            && Step(s, PollFails(k, message)).view.error == (if heard then Some(message) else s.view.error)
  {
  }

  /** In the error phase the message on screen is that of the last resolution or request, which failed. */
  lemma ErrorSaysWhy(es: seq<Event>)
    requires Run(es).view.phase == Error
    ensures var log := Run(es).log;
            && log != []
            && match log[|log| - 1]
               case ResolveFailed(message) => Run(es).view.error == Some(message)
               case Rejected(_, message) => Run(es).view.error == Some(message)
               case _ => false
  {
    Invariant(es);
  }

  /** Progress is reached by a success, or by a refusal that names a job already active; that job is followed. */
  lemma ProgressFollowsItsJob(es: seq<Event>)
    requires Run(es).view.phase == Progress
    ensures var log := Run(es).log;
            && log != []
            && match log[|log| - 1]
               case Accepted(started) => Run(es).view.jobId == started
               case Rejected(ActiveJobExists(existing), _) => existing != None && existing != Some("") && Run(es).view.jobId == existing
               case _ => false
  {
    Invariant(es);
  }

  /** A completed job stays on screen: nothing replaces it and nothing is polled any more. */
  lemma CompletedJobStays(es: seq<Event>, e: Event)
    requires Completed(Run(es).view.job)
    ensures Step(Run(es), e).view.job == Run(es).view.job
    ensures forall p :: p in Step(Run(es), e).sessions ==> p.out == 0 && p.armed == 0
  {
    Invariant(es);
    StepKeepsTraffic(Run(es), e);
    StepKeepsPolling(Run(es), e);
  }

  /** After the cleanup on unmount no poll writes and no timer is armed again. */
  lemma UnmountSilencesPolling(es: seq<Event>, e: Event)
    requires !Run(es).mounted
    requires e.PollReply? || e.PollFails? || e.PollTimer? || e.RunPollEffect?
    ensures Step(Run(es), e).view == Run(es).view
    ensures forall p :: p in Step(Run(es), e).sessions ==> p.armed == 0
  {
    Invariant(es);
    StepKeepsPolling(Run(es), e);
  }
}
