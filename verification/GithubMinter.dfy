/** The mint as it runs: one call against the store and GitHub, updating both as it goes. */
module GithubMinter {
  import opened Codec
  import opened GithubMint

  /** GitHub's view of each chain: the generation it would accept. */
  class GitHub {
    var current: seq<nat>

    constructor ()
      ensures current == []
    {
      current := [];
    }

    /** RefreshUserAccessToken, with `o` as what happens to the exchange if the token is still good; a
        token that is not current can only be refused or never seen. */
    method Refresh(t: Token, o: Outcome) returns (seen: Outcome)
      modifies this
      ensures seen == if IsCurrent(old(current), t) || o.Unreachable? then o else RefreshRejected
      ensures current == if seen.Unreachable? then old(current) else Spend(old(current), t)
      ensures seen == if o.Unreachable? || (t.chain < |old(current)| && old(current)[t.chain] == t.gen) then o
                      else RefreshRejected
      ensures current == if !o.Unreachable? && t.chain < |old(current)| && old(current)[t.chain] == t.gen
                         then old(current)[t.chain := t.gen + 1] else old(current)
    {
      if !IsCurrent(current, t) && !o.Unreachable? {
        seen := RefreshRejected;
      } else {
        seen := o;
      }
      if !seen.Unreachable? && IsCurrent(current, t) {
        current := current[t.chain := t.gen + 1];
      }
    }
  }

  /** One link's row. Each update may succeed, fail, or take effect and still report failure. */
  class LinkStore {
    var row: Option<Link>

    constructor ()
      ensures row == None
    {
      row := None;
    }

    method Get(fails: bool) returns (l: Option<Link>)
      ensures l == if fails || !Live(row) then None else row
    {
      l := None;
      if !fails && row.Some? && !row.value.revoked {
        l := row;
      }
    }

    method StageRotation(stage: Stage, r: StoreResult) returns (ok: bool)
      modifies this
      ensures row == if r.Failed? then old(row) else StageRow(old(row), stage)
      ensures row == if r.Failed? || old(row).None? || old(row).value.revoked then old(row)
                     else Some(old(row).value.(pending := Some(stage)))
      ensures ok <==> r.Done? && old(row).Some? && !old(row).value.revoked
    {
      var found := row.Some? && !row.value.revoked;
      if found && !r.Failed? {
        row := Some(row.value.(pending := Some(stage)));
      }
      ok := found && r.Done?;
    }

    method Rotate(stage: Stage, r: StoreResult) returns (rotated: Option<Link>)
      modifies this
      ensures row == if r.Failed? then old(row) else RotateRow(old(row), stage)
      ensures r.Failed? || old(row).None? || old(row).value.revoked ==> row == old(row)
      ensures !r.Failed? && old(row).Some? && !old(row).value.revoked ==> Promoted(old(row).value, stage, row)
      ensures rotated == if r.Done? && old(row).Some? && !old(row).value.revoked then row else None
    {
      rotated := None;
      if row.Some? && !row.value.revoked && !r.Failed? {
        var l := row.value.(live := stage.tuple, pending := None, relinkRequired := false);
        if stage.version != 0 {
          l := l.(version := stage.version);
        }
        row := Some(l.(deliveryId := DeliveryId(l.secretId, stage.version)));
        if r.Done? {
          rotated := row;
        }
      }
    }

    method MarkRelinkRequired(r: StoreResult)
      modifies this
      ensures row == if r.Failed? then old(row) else MarkRow(old(row))
      ensures row == if r.Failed? || old(row).None? || old(row).value.revoked then old(row)
                     else Some(old(row).value.(relinkRequired := true))
    {
      if row.Some? && !row.value.revoked && !r.Failed? {
        row := Some(row.value.(relinkRequired := true));
      }
    }

    method Revoke() returns (found: bool)
      modifies this
      ensures row == RevokeRow(old(row))
      ensures found <==> old(row).Some? && !old(row).value.revoked
      ensures row == if found then Some(old(row).value.(revoked := true)) else old(row)
    {
      found := row.Some? && !row.value.revoked;
      if found {
        row := Some(row.value.(revoked := true));
      }
    }

    method RedeemUpsert(secretId: string, tuple: Tuple)
      modifies this
      ensures row == RelinkRow(old(row), secretId, tuple)
      ensures row.Some? && row.value.live == tuple && !row.value.revoked && !row.value.relinkRequired
      ensures row.value.secretId == (if old(row).Some? then old(row).value.secretId else secretId)
      ensures row.value.version == (if old(row).Some? then old(row).value.version + 1 else 1)
      ensures row.value.deliveryId == "github-access-" + row.value.secretId + "-v" + Itoa(row.value.version)
      ensures row.value.pending == (if old(row).Some? then old(row).value.pending else None)
    {
      if row.None? {
        row := Some(Link(secretId, false, false, tuple, 1, DeliveryId(secretId, 1), None));
      } else {
        var l := row.value;
        row := Some(l.(live := tuple, version := l.version + 1, deliveryId := DeliveryId(l.secretId, l.version + 1),
                       revoked := false, relinkRequired := false));
      }
    }
  }

  /** The stage has become the link's tuple, at its version and under its delivery id. */
  predicate Promoted(l: Link, stage: Stage, row: Option<Link>) {
    && row.Some? && row.value.secretId == l.secretId && row.value.revoked == l.revoked
    && row.value.live == stage.tuple && row.value.pending == None && !row.value.relinkRequired
    && row.value.version == (if stage.version == 0 then l.version else stage.version)
    && row.value.deliveryId == "github-access-" + l.secretId + "-v" + Itoa(stage.version)
  }

  /** How the calls one mint makes will fare. */
  datatype Weather = Weather(getFails: bool, github: Outcome, mark: StoreResult, stage: StoreResult,
                             commit: StoreResult)

  datatype Response = Minted(access: string, expiresAt: int, refreshed: bool) | Unanswered(reason: Reason)
  datatype Reason = NotFound | RelinkRequired | PermissionDenied | Unavailable | Internal

  function GitHubSays(s: State, t: Token, o: Outcome): Outcome {
    if IsCurrent(s.current, t) || o.Unreachable? then o else RefreshRejected
  }

  /** The steps of the protocol one undisturbed mint takes. */
  function Script(s: State, ref: Ref, w: Weather): seq<Event> {
    if w.getFails || !Live(s.row) then []
    else
      match Decide(s.row.value, ref, s.clock)
      case Recover(_) => [Begin(ref), CommitStep(w.commit)]
      case Broken => [Begin(ref)]
      case Refresh =>
        var o := GitHubSays(s, s.row.value.live.refresh, w.github);
        [Begin(ref)] + [Judge] + AfterCall(o, w)
      case _ => [Begin(ref)] + [Judge]
  }

  function AfterCall(o: Outcome, w: Weather): seq<Event> {
    match o
    case RefreshRejected => [CallGitHub(o), MarkStep(w.mark)]
    case Delivered(_, _, _, _) =>
      [CallGitHub(o), StageStep(w.stage)] + if w.stage.Done? then [CommitStep(w.commit)] else []
    case _ => [CallGitHub(o)]
  }

  /** The script, link by link, with the checks against the clock left as they are. */
  lemma ScriptIs(s: State, ref: Ref, w: Weather)
    requires !w.getFails && Live(s.row)
    ensures
      var l := s.row.value;
      && Script(s, ref, w) == (if l.relinkRequired then [Begin(ref)]
                               else if l.pending.Some? then [Begin(ref)] + [CommitStep(w.commit)]
                               else [Begin(ref)] + [Judge] + if Judgement(l, ref, s.clock).Refresh?
                                                             then AfterCall(GitHubSays(s, l.live.refresh, w.github), w)
                                                             else [])
      && (Decide(l, ref, s.clock).Deny? <==> !l.relinkRequired && l.pending.None? && Judgement(l, ref, s.clock).Deny?)
  {
    hide AfterCall, GitHubSays;
  }

  lemma BeginMoves(s: State, ref: Ref)
    requires s.phase.Idle? && Live(s.row)
    ensures Enabled(s, Begin(ref))
    ensures Next(s, Begin(ref)) == if s.row.value.relinkRequired then s
                                   else if s.row.value.pending.Some?
                                     then s.(phase := Recovering(s.row.value.pending.value))
                                   else s.(phase := Looked(s.row.value, ref))
  {
  }

  lemma JudgeMoves(s: State, l: Link, ref: Ref)
    requires s.phase == Looked(l, ref)
    ensures Enabled(s, Judge)
    ensures Next(s, Judge) == match Judgement(l, ref, s.clock)
                              case Serve =>
                                s.(phase := Idle,
                                   answers := s.answers
                                       + [Answer(l.live.access, l.live.accessExpiresAt, false, s.clock, l.version)])
                              case Refresh => s.(phase := Fetched(l, s.clock))
                              case _ => s.(phase := Idle)
  {
  }

  lemma MarkIsLast(o: Outcome, w: Weather)
    ensures MarkStep(w.mark) in AfterCall(o, w) <==> o.RefreshRejected?
  {
  }

  /** The link's access token may be handed out as it is: ten minutes and more are left. */
  predicate HasLife(l: Link, now: int) {
    l.live.access != "" && l.live.accessExpiresAt > now + 600
  }

  /** The node's reference is its first, or names the link's current delivery. */
  predicate Knows(l: Link, ref: Ref) {
    ref.Initial? || (ref.version == l.version && ref.deliveryId == l.deliveryId)
  }

  /** The checks against the clock: a node's own reference must be current, or older with a token that has
      more than ten minutes left; otherwise such a token is served and any other refreshed. */
  method JudgeLink(link: Link, ref: Ref, now: int) returns (d: Decision)
    ensures d == Judgement(link, ref, now) && (d.Serve? || d.Refresh? || d.Deny?)
    ensures d.Deny? <==> ref.Explicit? && (link.version != ref.version || link.deliveryId != ref.deliveryId)
                         && !(ref.version < link.version && HasLife(link, now))
    ensures d.Refresh? <==> !HasLife(link, now)
                            && (ref.Initial? || (link.version == ref.version && link.deliveryId == ref.deliveryId))
  {
    var usable := link.live.access != "" && link.live.accessExpiresAt > now + RefreshLead;
    if ref.Explicit? && (link.version != ref.version || link.deliveryId != ref.deliveryId) {
      if !(ref.version < link.version && usable) {
        return Deny;
      }
    }
    if usable {
      return Serve;
    }
    d := Refresh;
  }

  class Minter {
    const store: LinkStore
    const github: GitHub
    ghost var answers: seq<Answer>

    constructor (store: LinkStore, github: GitHub)
      ensures this.store == store && this.github == github && answers == []
    {
      this.store, this.github, answers := store, github, [];
    }

    ghost function Snapshot(now: int): State
      reads this, store, github
    {
      State(store.row, github.current, now, Idle, answers)
    }

    /** MintGitHubAccessToken: its effect on the row and on GitHub is a run of the protocol, and it
        answers with a token exactly when that run does. */
    method Mint(ref: Ref, now: int, w: Weather) returns (resp: Response, ghost es: seq<Event>)
      requires w.github.Delivered? ==>
                 w.github.access != "" && w.github.accessExpiresAt != 0 && w.github.refreshExpiresAt != 0
      modifies this, store, github
      ensures es == Script(old(Snapshot(now)), ref, w)
      ensures Exec(old(Snapshot(now)), es) == Some(Snapshot(now))
      ensures AnswersWith(old(answers), resp, now)
      ensures w.getFails || old(store.row).None? || old(store.row).value.revoked ==>
                resp == Unanswered(if w.getFails then Internal else NotFound) && Untouched(old(Snapshot(now)), now)
      ensures !w.getFails && old(store.row).Some? && !old(store.row).value.revoked ==>
                var l := old(store.row).value;
                if l.relinkRequired then resp == Unanswered(RelinkRequired) && Untouched(old(Snapshot(now)), now)
                else if l.pending.Some? then
                  github.current == old(github.current) && CommitsTo(l, l.pending.value, w.commit, resp, old(store.row))
                else if Knows(l, ref) && !HasLife(l, now) then Refreshes(old(Snapshot(now)), l, w, resp)
                else if Knows(l, ref) || (ref.version < l.version && HasLife(l, now)) then
                  resp == Minted(l.live.access, l.live.accessExpiresAt, false) && Untouched(old(Snapshot(now)), now)
                else resp == Unanswered(PermissionDenied) && Untouched(old(Snapshot(now)), now)
    {
      es := [];
      var got := store.Get(w.getFails);
      if got.None? {
        return Unanswered(if w.getFails then Internal else NotFound), es;
      }
      var link := got.value;
      ghost var s0 := Snapshot(now);
      BeginMoves(s0, ref);
      MarkIsLast(GitHubSays(s0, link.live.refresh, w.github), w);
      assert Exec(s0, []) == Some(s0);
      ScriptIs(s0, ref, w);
      hide *;
      RunOne(s0, [], s0, Begin(ref));
      es := [Begin(ref)];
      if link.relinkRequired {
        return Unanswered(RelinkRequired), es;
      }
      if link.pending.Some? {
        resp, es := CommitAndAnswer(link.pending.value, now, w.commit, s0, es, Recovering(link.pending.value));
        return;
      }
      resp, es := JudgeAndServe(link, ref, now, w, s0, es);
    }

    /** Row and GitHub are as they were. */
    ghost predicate Untouched(s: State, now: int)
      reads this, store, github
    {
      store.row == s.row && github.current == s.current
    }

    /** The answer to a commit of `stage` over `l`, and what it makes of the row that was `before`. */
    ghost predicate CommitsTo(l: Link, stage: Stage, r: StoreResult, resp: Response, before: Option<Link>)
      reads this, store
    {
      && resp == (if r.Done? then Minted(stage.tuple.access, stage.tuple.accessExpiresAt, true)
                  else Unanswered(Internal))
      && if r.Failed? then store.row == before else Promoted(l, stage, store.row)
    }

    /** What a mint that goes to GitHub does, outcome by outcome. A token that is not the current one of its chain
        is refused. */
    ghost predicate Refreshes(s: State, l: Link, w: Weather, resp: Response)
      reads this, store, github
    {
      var t := l.live.refresh;
      var good := t.chain < |s.current| && s.current[t.chain] == t.gen;
      if w.github.Unreachable? then resp == Unanswered(Unavailable) && Untouched(s, s.clock)
      else
        && github.current == (if good then s.current[t.chain := t.gen + 1] else s.current)
        && if !good || w.github.RefreshRejected? then
             && resp == Unanswered(RelinkRequired)
             && store.row == if w.mark.Failed? then s.row else Some(l.(relinkRequired := true))
           else if w.github.ResponseLost? then resp == Unanswered(Unavailable) && store.row == s.row
           else
             var tuple := Tuple(Token(t.chain, t.gen + 1), w.github.refreshExpiresAt, w.github.access,
                                w.github.accessExpiresAt,
                                if TrimSpace(w.github.tokenType) == "" then "bearer" else w.github.tokenType);
             var stage := Stage(tuple, l.version + 1);
             var staged := Some(l.(pending := Some(stage)));
             if w.stage.Done? then CommitsTo(l, stage, w.commit, resp, staged)
             else resp == Unanswered(Unavailable) && store.row == if w.stage.Failed? then s.row else staged
    }

    /** What is left when the link carries neither mark nor stage. */
    method JudgeAndServe(link: Link, ref: Ref, now: int, w: Weather, ghost s0: State, ghost before: seq<Event>)
      returns (resp: Response, ghost es: seq<Event>)
      requires w.github.Delivered? ==>
                 w.github.access != "" && w.github.accessExpiresAt != 0 && w.github.refreshExpiresAt != 0
      requires Live(store.row) && store.row.value == link
      requires Exec(s0, before) == Some(Snapshot(now).(phase := Looked(link, ref)))
      modifies this, store, github
      ensures es == before + [Judge] + if Judgement(link, ref, now).Refresh?
                                       then AfterCall(GitHubSays(old(Snapshot(now)), link.live.refresh, w.github), w)
                                       else []
      ensures Exec(s0, es) == Some(Snapshot(now))
      ensures AnswersWith(old(answers), resp, now)
      ensures if Knows(link, ref) && !HasLife(link, now) then Refreshes(old(Snapshot(now)), link, w, resp)
              else if Knows(link, ref) || (ref.version < link.version && HasLife(link, now)) then
                resp == Minted(link.live.access, link.live.accessExpiresAt, false) && Untouched(old(Snapshot(now)), now)
              else resp == Unanswered(PermissionDenied) && Untouched(old(Snapshot(now)), now)
    {
      ghost var s1 := Snapshot(now).(phase := Looked(link, ref));
      JudgeMoves(s1, link, ref);
      hide *;
      RunOne(s0, before, s1, Judge);
      es := before + [Judge];
      var verdict := JudgeLink(link, ref, now);
      match verdict {
        case Serve =>
          answers := answers + [Answer(link.live.access, link.live.accessExpiresAt, false, now, link.version)];
          resp := Minted(link.live.access, link.live.accessExpiresAt, false);
        case Refresh => resp, es := RefreshChain(link, now, w, s0, es);
        case _ => resp := Unanswered(PermissionDenied);
      }
    }

    /** What the caller is told is what the run answered. */
    ghost predicate AnswersWith(before: seq<Answer>, resp: Response, now: int)
      reads this, store
    {
      match resp
      case Minted(access, expiresAt, refreshed) =>
        Live(store.row) && answers == before + [Answer(access, expiresAt, refreshed, now, store.row.value.version)]
      case Unanswered(_) => answers == before
    }

    method RefreshChain(link: Link, now: int, w: Weather, ghost s0: State, ghost before: seq<Event>)
      returns (resp: Response, ghost es: seq<Event>)
      requires w.github.Delivered? ==>
                 w.github.access != "" && w.github.accessExpiresAt != 0 && w.github.refreshExpiresAt != 0
      requires Live(store.row) && store.row.value == link
      requires Exec(s0, before) == Some(Snapshot(now).(phase := Fetched(link, now)))
      modifies this, store, github
      ensures es == before + AfterCall(GitHubSays(old(Snapshot(now)), link.live.refresh, w.github), w)
      ensures Exec(s0, es) == Some(Snapshot(now))
      ensures AnswersWith(old(answers), resp, now)
      ensures Refreshes(old(Snapshot(now)), link, w, resp)
    {
      ghost var s1 := Snapshot(now).(phase := Fetched(link, now));
      var seen := github.Refresh(link.live.refresh, w.github);
      RunOne(s0, before, s1, CallGitHub(seen));
      es := before + [CallGitHub(seen)];
      ghost var s2 := Next(s1, CallGitHub(seen));
      match seen {
        case RefreshRejected =>
          store.MarkRelinkRequired(w.mark);
          RunOne(s0, es, s2, MarkStep(w.mark));
          es := es + [MarkStep(w.mark)];
          resp := Unanswered(RelinkRequired);
        case Unreachable => resp := Unanswered(Unavailable);
        case ResponseLost => resp := Unanswered(Unavailable);
        case Delivered(access, accessExp, refreshExp, tokenType) =>
          var next := Tuple(Token(link.live.refresh.chain, link.live.refresh.gen + 1), refreshExp, access, accessExp,
                            TypeOrBearer(tokenType));
          resp, es := StageAndCommit(Stage(next, link.version + 1), now, w, s0, es);
      }
    }

    /** The write-ahead half: stage, and only then commit. */
    method StageAndCommit(stage: Stage, now: int, w: Weather, ghost s0: State, ghost before: seq<Event>)
      returns (resp: Response, ghost es: seq<Event>)
      requires Live(store.row)
      requires Exec(s0, before) == Some(Snapshot(now).(phase := Granted(stage, now)))
      modifies this, store
      ensures es == before + [StageStep(w.stage)] + if w.stage.Done? then [CommitStep(w.commit)] else []
      ensures Exec(s0, es) == Some(Snapshot(now))
      ensures AnswersWith(old(answers), resp, now)
      ensures var l := old(store.row).value;
              var staged := Some(l.(pending := Some(stage)));
              if w.stage.Done? then CommitsTo(l, stage, w.commit, resp, staged)
              else resp == Unanswered(Unavailable) && store.row == if w.stage.Failed? then old(store.row) else staged
    {
      ghost var s := Snapshot(now).(phase := Granted(stage, now));
      var ok := store.StageRotation(stage, w.stage);
      RunOne(s0, before, s, StageStep(w.stage));
      es := before + [StageStep(w.stage)];
      if !ok {
        return Unanswered(Unavailable), es;
      }
      resp, es := CommitAndAnswer(stage, now, w.commit, s0, es, Staged(stage, now));
    }

    /** commitGitHubRotation, then the response built from what it returned. */
    method CommitAndAnswer(stage: Stage, now: int, r: StoreResult, ghost s0: State, ghost before: seq<Event>,
                           ghost phase: Phase)
      returns (resp: Response, ghost es: seq<Event>)
      requires phase == Staged(stage, now) || phase == Recovering(stage)
      requires Live(store.row)
      requires Exec(s0, before) == Some(Snapshot(now).(phase := phase))
      modifies this, store
      ensures es == before + [CommitStep(r)]
      ensures Exec(s0, es) == Some(Snapshot(now))
      ensures AnswersWith(old(answers), resp, now)
      ensures CommitsTo(old(store.row).value, stage, r, resp, old(store.row))
    {
      ghost var s := Snapshot(now).(phase := phase);
      var rotated := store.Rotate(stage, r);
      RunOne(s0, before, s, CommitStep(r));
      es := before + [CommitStep(r)];
      if rotated.None? {
        return Unanswered(Internal), es;
      }
      var l := rotated.value;
      answers := answers + [Answer(l.live.access, l.live.accessExpiresAt, true, now, l.version)];
      resp := Minted(l.live.access, l.live.accessExpiresAt, true);
    }
  }
}
