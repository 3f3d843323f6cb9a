/** The polling agent: which deployments it submits, what it remembers of them,
    and when it may skip a page that has not changed. */
module DeploymentAgent {
  import opened LargestIds
  import opened Outcomes
  import opened Releases

  const MAX_SEEN := 200
  const MAX_ETAG := 512

  // ------------------------------------------------------------------
  // Waiting.

  function Clamp(seconds: int): (r: int)
    ensures 15 <= r <= 900
  {
    if seconds < 15 then 15 else if seconds > 900 then 900 else seconds
  }

  function Doubled(n: nat): (r: nat)
    ensures r >= 15
  {
    if n == 0 then 15 else 2 * Doubled(n - 1)
  }

  /** `retry_delay`. `reset` is the reset header if no requests remain. */
  function RetryDelay(retryAfter: Option<nat>, reset: Option<nat>, failures: int, now: int): int {
    if retryAfter.Some? then Clamp(retryAfter.value)
    else if reset.Some? then Clamp(reset.value - now + 5)
    else
      var n := if failures < 0 then 0 else if failures > 6 then 6 else failures;
      if Doubled(n) < 900 then Doubled(n) else 900
  }

  /** Every delay is between 15 and 900 seconds, and without advice from the
      server it never shrinks as failures accumulate. */
  lemma DelayIsBounded(retryAfter: Option<nat>, reset: Option<nat>, now: int, fewer: int, more: int)
    requires fewer <= more
    ensures 15 <= RetryDelay(retryAfter, reset, more, now) <= 900
    ensures retryAfter.None? && reset.None? ==>
      RetryDelay(retryAfter, reset, fewer, now) <= RetryDelay(retryAfter, reset, more, now)
  {
    var a := if fewer < 0 then 0 else if fewer > 6 then 6 else fewer;
    var b := if more < 0 then 0 else if more > 6 then 6 else more;
    DoubledGrows(a, b);
  }

  /** The delays: what the server asks for, within 15 and 900 seconds; five seconds
      after its limit is reset, within the same; or 15 seconds, doubled with each
      failure up to the sixth, at most 900. */
  lemma DelayIs(retryAfter: Option<nat>, reset: Option<nat>, failures: int, now: int)
    ensures retryAfter.Some? ==>
      var wait := retryAfter.value;
      RetryDelay(retryAfter, reset, failures, now) == if wait < 15 then 15 else if wait > 900 then 900 else wait
    ensures retryAfter.None? && reset.Some? ==>
      var wait := reset.value - now + 5;
      RetryDelay(retryAfter, reset, failures, now) == if wait < 15 then 15 else if wait > 900 then 900 else wait
    ensures retryAfter.None? && reset.None? && failures <= 0 ==> RetryDelay(retryAfter, reset, failures, now) == 15
    ensures retryAfter.None? && reset.None? && 0 <= failures < 5 ==>
      RetryDelay(retryAfter, reset, failures + 1, now) == 2 * RetryDelay(retryAfter, reset, failures, now)
    ensures retryAfter.None? && reset.None? && failures >= 6 ==> RetryDelay(retryAfter, reset, failures, now) == 900
  {
    assert Doubled(1) == 30 && Doubled(2) == 60 && Doubled(3) == 120 && Doubled(4) == 240 && Doubled(5) == 480;
    assert Doubled(6) == 960;
  }

  lemma {:induction false} DoubledGrows(a: nat, b: nat)
    requires a <= b
    ensures Doubled(a) <= Doubled(b)
  {
    if a < b {
      DoubledGrows(a, b - 1);
    }
  }

  // ------------------------------------------------------------------
  // The state file.

  datatype State = State(failures: int, nextPoll: int, etags: map<Environment, string>, seen: seq<nat>)

  const INITIAL := State(0, 0, map[], [])

  /** What `load_state` accepts. */
  predicate Accepted(s: State) {
    && 0 <= s.failures <= 7 && s.nextPoll >= 0
    && (forall e :: e in s.etags ==> |s.etags[e]| <= MAX_ETAG)
    && |s.seen| <= MAX_SEEN && (forall i :: 0 <= i < |s.seen| ==> s.seen[i] > 0)
    && forall i, j :: 0 <= i < j < |s.seen| ==> s.seen[i] != s.seen[j]
  }

  // ------------------------------------------------------------------
  // The other side.

  /** One entry of a page: its id, or something that is not an object with an id. */
  datatype Entry = Id(n: int) | Malformed

  datatype Response =
    | Unchanged
    | Page(entries: seq<Entry>, etag: Option<string>)
    | Unreadable
    | Unavailable(retryAfter: Option<nat>, reset: Option<nat>)
    | Failed

  datatype Answer = Handled | TerminalReject | Retryable

  /** A page that came with an entity tag. */
  datatype Served = Served(environment: Environment, etag: string, entries: seq<Entry>)

  /** Each entry of a page, from the `from`th on, has been handled or rejected
      for good. */
  ghost predicate AllSettled(entries: seq<Entry>, from: nat, handled: set<nat>) {
    forall i :: from <= i < |entries| ==> entries[i].Id? && entries[i].n > 0 && entries[i].n in handled
  }

  ghost predicate Settled(page: Served, handled: set<nat>) {
    AllSettled(page.entries, 0, handled)
  }

  /** What was submitted since `before` was not among the `seen`. */
  ghost predicate SubmittedUnseen(before: seq<nat>, after: seq<nat>, seen: set<nat>) {
    before <= after && forall k :: |before| <= k < |after| ==> after[k] !in seen
  }

  /** A tag that is stored belongs to a page whose entries are all settled. */
  ghost predicate TagsAreEarned(s: State, served: set<Served>, handled: set<nat>) {
    forall e :: e in s.etags ==>
      exists page :: page in served && page.environment == e && page.etag == s.etags[e] && Settled(page, handled)
  }

  /** The state remembers the largest of the `recorded` ids. */
  ghost predicate Sound(s: State, recorded: set<nat>, handled: set<nat>, served: set<Served>) {
    && Accepted(s) && 0 !in recorded && recorded <= handled
    && s.seen == Largest(recorded, MAX_SEEN)
    && TagsAreEarned(s, served, handled)
  }

  lemma LargestIsAccepted(s: State, ids: set<nat>)
    requires Accepted(s) && 0 !in ids
    ensures Accepted(s.(seen := Largest(ids, MAX_SEEN)))
  {
    var t := Largest(ids, MAX_SEEN);
    LargestIsTop(ids, MAX_SEEN);
    forall i | 0 <= i < |t|
      ensures t[i] > 0
    {
      assert t[i] in Elements(t);
    }
  }

  /** Handling more, or serving more pages, leaves a state sound. */
  lemma StaysSound(s: State, recorded: set<nat>, handled: set<nat>, served: set<Served>, ids: set<nat>,
      more: set<Served>)
    requires Sound(s, recorded, handled, served) && handled <= ids && served <= more
    ensures Sound(s, recorded, ids, more)
  {
    forall e | e in s.etags
      ensures exists page :: page in more && page.environment == e && page.etag == s.etags[e] && Settled(page, ids)
    {
      var page :| page in served && page.environment == e && page.etag == s.etags[e] && Settled(page, handled);
      assert page in more && Settled(page, ids);
    }
  }

  /** Remembering one more id after `more` others of this poll. */
  lemma RemembersOneMore(s: State, base: set<nat>, more: set<nat>, handled: set<nat>, served: set<Served>, id: nat)
    requires Sound(s, base + more, handled, served) && id > 0
    ensures var seen := Elements(Largest(base, MAX_SEEN)) + more;
      Sound(s.(seen := Largest(seen + {id}, MAX_SEEN)), base + more + {id}, handled + {id}, served)
  {
    var next := base + more + {id};
    LargestOfUnion(base, more + {id}, MAX_SEEN);
    assert Elements(Largest(base, MAX_SEEN)) + more + {id} == Elements(Largest(base, MAX_SEEN)) + (more + {id});
    assert next == base + (more + {id});
    LargestIsAccepted(s, next);
    StaysSound(s, base + more, handled, served, handled + {id}, served);
  }

  lemma Reschedules(s: State, recorded: set<nat>, handled: set<nat>, served: set<Served>, failures: int, nextPoll: int)
    requires Sound(s, recorded, handled, served) && 0 <= failures <= 7 && nextPoll >= 0
    ensures Sound(s.(failures := failures, nextPoll := nextPoll), recorded, handled, served)
  {
  }

  /** What a sound state remembers: ascending, without duplicates, at most 200,
      and no recorded id that it lacks is larger than one that it has. */
  lemma SoundRemembersLargest(s: State, recorded: set<nat>, handled: set<nat>, served: set<Served>)
    requires Sound(s, recorded, handled, served)
    ensures Ascending(s.seen) && IsTop(Elements(s.seen), recorded)
    ensures |Elements(s.seen)| == |s.seen| == if |recorded| < 200 then |recorded| else 200
  {
    LargestIsTop(recorded, MAX_SEEN);
  }

  lemma EarnsTag(s: State, recorded: set<nat>, handled: set<nat>, served: set<Served>, page: Served)
    requires Sound(s, recorded, handled, served) && |page.etag| <= MAX_ETAG && Settled(page, handled)
    ensures Sound(s.(etags := s.etags[page.environment := page.etag]), recorded, handled, served + {page})
  {
    StaysSound(s, recorded, handled, served, handled, served + {page});
    assert page in served + {page};
  }

  /** The entry was known before or has been submitted. */
  predicate Attended(entry: Entry, seen: seq<nat>, submitted: seq<nat>) {
    entry.Id? && entry.n > 0 && (entry.n in seen || entry.n in submitted)
  }

  /** What was submitted are entries of the page, each further ahead in it than the
      one before: the page lists the newest first. */
  ghost predicate OldestFirst(entries: seq<Entry>, before: seq<nat>, after: seq<nat>) {
    before <= after && exists places :: Backwards(entries, after[|before|..], places, 0)
  }

  ghost predicate Backwards(entries: seq<Entry>, ids: seq<nat>, places: seq<nat>, from: nat) {
    && |places| == |ids|
    && (forall k :: 0 <= k < |ids| ==> from <= places[k] < |entries| && entries[places[k]] == Id(ids[k]))
    && forall k, l :: 0 <= k < l < |ids| ==> places[k] > places[l]
  }

  ghost predicate AllAttended(entries: seq<Entry>, from: nat, seen: seq<nat>, submitted: seq<nat>) {
    forall i :: from <= i < |entries| ==> Attended(entries[i], seen, submitted)
  }

  lemma OneMoreAttended(entries: seq<Entry>, i: nat, seen: seq<nat>, before: seq<nat>, submitted: seq<nat>)
    requires AllAttended(entries, i + 1, seen, before) && before <= submitted
    requires i < |entries| && Attended(entries[i], seen, submitted)
    ensures AllAttended(entries, i, seen, submitted)
  {
  }

  lemma OneMoreBackwards(entries: seq<Entry>, ids: seq<nat>, places: seq<nat>, i: nat, id: nat)
    requires Backwards(entries, ids, places, i + 1) && i < |entries| && entries[i] == Id(id)
    ensures Backwards(entries, ids + [id], places + [i], i)
  {
  }

  lemma BackwardsFurther(entries: seq<Entry>, ids: seq<nat>, places: seq<nat>, from: nat, i: nat)
    requires Backwards(entries, ids, places, from) && i <= from
    ensures Backwards(entries, ids, places, i)
  {
  }

  lemma BackwardsIsOldestFirst(entries: seq<Entry>, before: seq<nat>, ids: seq<nat>, places: seq<nat>, from: nat)
    requires Backwards(entries, ids, places, from)
    ensures OldestFirst(entries, before, before + ids)
  {
    BackwardsFurther(entries, ids, places, from, 0);
    assert (before + ids)[|before|..] == ids;
  }

  lemma SeenIsLargest(s: State, recorded: set<nat>, handled: set<nat>, served: set<Served>)
    requires Sound(s, recorded, handled, served)
    ensures Elements(s.seen) == Elements(Largest(recorded, MAX_SEEN)) <= handled
  {
    LargestIsTop(recorded, MAX_SEEN);
  }

  lemma OneMoreSeen(largest: set<nat>, base: set<nat>, more: set<nat>, id: nat)
    ensures largest + more + {id} == largest + (more + {id}) && base + (more + {id}) == base + more + {id}
  {
  }

  lemma ElementsGrow(s: seq<nat>, id: nat)
    ensures Elements(s + [id]) == Elements(s) + {id} && Elements([]) == {}
  {
    assert id in s + [id] by { assert (s + [id])[|s|] == id; }
  }

  lemma EntryIsAttended(entry: Entry, known: seq<nat>, before: seq<nat>, sent: seq<nat>, more: set<nat>)
    requires entry.Id? && entry.n > 0 && more <= Elements(sent)
    requires entry.n in Elements(known) || entry.n in more || entry.n in Elements(sent)
    ensures Attended(entry, known, before + sent)
  {
  }

  lemma Begins(entries: seq<Entry>, base: set<nat>, seen: seq<nat>)
    ensures Backwards(entries, [], [], |entries|) && AllAttended(entries, |entries|, seen, [])
    ensures forall submitted :: AllAttended(entries, |entries|, seen, submitted)
    ensures forall handled :: AllSettled(entries, |entries|, handled)
    ensures forall submitted, all :: SubmittedUnseen(submitted, submitted, all)
  {
  }

  lemma StaysSettled(entries: seq<Entry>, handled: set<nat>, more: set<nat>)
    requires AllSettled(entries, 0, handled) && handled <= more
    ensures AllSettled(entries, 0, more)
  {
  }

  lemma OneMoreUnseen(before: seq<nat>, after: seq<nat>, seen: set<nat>, id: nat)
    requires SubmittedUnseen(before, after, seen) && id !in seen
    ensures SubmittedUnseen(before, after + [id], seen)
  {
  }

  lemma OneMoreSettled(entries: seq<Entry>, i: nat, handled: set<nat>, more: set<nat>)
    requires i < |entries| && handled <= more && AllSettled(entries, i + 1, handled)
    requires entries[i].Id? && entries[i].n > 0 && entries[i].n in more
    ensures AllSettled(entries, i, more)
  {
  }

  class Agent {
    var state: State
    var disk: Option<State>
    /** Every id that the controller ever answered with handled or rejected. */
    ghost var handled: set<nat>
    /** Those among them that the state in memory, and the file, account for. */
    ghost var recorded: set<nat>
    ghost var durable: set<nat>
    ghost var served: set<Served>
    ghost var submitted: seq<nat>

    ghost predicate Loaded()
      reads this
    {
      Sound(state, recorded, handled, served)
    }

    ghost predicate Stored()
      reads this
    {
      Sound(OnDisk(), durable, handled, served)
    }

    function OnDisk(): State
      reads this
    {
      if disk.Some? then disk.value else INITIAL
    }

    constructor ()
      ensures Stored() && disk == None && handled == {} && submitted == []
    {
      state := INITIAL;
      disk := None;
      handled, recorded, durable, served, submitted := {}, {}, {}, {}, [];
    }

    /** `atomic_state`: the file is the old one or the new one. */
    method Write() returns (result: Outcome)
      requires Loaded() && Stored()
      modifies this`disk, this`durable
      ensures Stored() && !result.Raised?
      ensures result.Done? ==> disk == Some(state) && durable == recorded
      ensures disk != old(disk) ==> disk == Some(state)
    {
      result := *;
      if result.Raised? {
        result := Escaped;
      }
      var replaced: bool := *;
      if result.Done? || replaced {
        disk := Some(state);
        durable := recorded;
      }
    }

    /** Submit one deployment that is not among the `seen`. `more` are the ids
        that this poll has added to what it found in the state. */
    method Submit(id: nat, seen: set<nat>, ghost base: set<nat>, ghost more: set<nat>)
      returns (answer: Answer, result: Outcome)
      requires Loaded() && Stored() && id > 0
      requires seen == Elements(Largest(base, MAX_SEEN)) + more && recorded == base + more
      modifies this
      ensures Loaded() && Stored() && !result.Raised?
      ensures served == old(served) && submitted == old(submitted) + [id]
      ensures state == old(state).(seen := state.seen)
      ensures handled == if answer.Retryable? then old(handled) else old(handled) + {id}
      ensures recorded == if answer.Retryable? then old(recorded) else old(recorded) + {id}
      ensures answer.Retryable? ==> result.Done?
    {
      submitted := submitted + [id];
      answer := *;
      result := Done;
      if !answer.Retryable? {
        RemembersOneMore(state, base, more, handled, served, id);
        StaysSound(OnDisk(), durable, handled, served, handled + {id}, served);
        handled := handled + {id};
        recorded := recorded + {id};
        state := state.(seen := Largest(seen + {id}, MAX_SEEN));
        result := Write();
      }
    }

    /** The loop of `poll_environment` over a page, oldest entry first. */
    method SubmitPage(entries: seq<Entry>) returns (retryableFound: bool, result: Outcome)
      requires Loaded() && Stored()
      modifies this
      ensures Loaded() && Stored()
      ensures state == old(state).(seen := state.seen) && served == old(served) && old(handled) <= handled
      ensures SubmittedUnseen(old(submitted), submitted, Elements(old(state.seen)))
      ensures result.Done? && !retryableFound ==> AllSettled(entries, 0, handled)
      ensures result.Done? ==> AllAttended(entries, 0, old(state.seen), submitted)
      ensures OldestFirst(entries, old(submitted), submitted)
    {
      hide Sound, Backwards, AllAttended, OldestFirst, AllSettled, SubmittedUnseen, Largest, Attended, Elements;
      SeenIsLargest(state, recorded, handled, served);
      retryableFound, result := false, Done;
      ghost var base, more: set<nat> := recorded, {};
      ghost var sent, places: seq<nat> := [], [];
      var seen := Elements(state.seen);
      Begins(entries, base, state.seen);
      ElementsGrow([], 0);
      var i := |entries|;
      while i > 0
        invariant 0 <= i <= |entries| && Loaded() && Stored() && result.Done?
        invariant seen == Elements(Largest(base, MAX_SEEN)) + more && recorded == base + more
        invariant Elements(old(state.seen)) == Elements(Largest(base, MAX_SEEN)) && seen <= handled
        invariant state == old(state).(seen := state.seen) && served == old(served) && old(handled) <= handled
        invariant SubmittedUnseen(old(submitted), submitted, Elements(old(state.seen)))
        invariant retryableFound || AllSettled(entries, i, handled)
        invariant submitted == old(submitted) + sent && more <= Elements(sent)
        invariant Backwards(entries, sent, places, i) && AllAttended(entries, i, old(state.seen), submitted)
      {
        i := i - 1;
        BackwardsIsOldestFirst(entries, old(submitted), sent, places, i + 1);
        if entries[i].Malformed? || entries[i].n <= 0 {
          return retryableFound, Raised;
        }
        var id: nat := entries[i].n;
        ghost var before, sentBefore := handled, submitted;
        if id !in seen {
          OneMoreUnseen(old(submitted), submitted, Elements(old(state.seen)), id);
          OneMoreBackwards(entries, sent, places, i, id);
          var answer;
          answer, result := Submit(id, seen, base, more);
          sent, places := sent + [id], places + [i];
          ElementsGrow(sent[..|sent| - 1], id);
          assert sent[..|sent| - 1] + [id] == sent && submitted == old(submitted) + sent;
          BackwardsIsOldestFirst(entries, old(submitted), sent, places, i);
          if answer.Retryable? {
            retryableFound := true;
          } else {
            OneMoreSeen(Elements(Largest(base, MAX_SEEN)), base, more, id);
            seen, more := seen + {id}, more + {id};
          }
          if !result.Done? {
            return;
          }
        } else {
          BackwardsFurther(entries, sent, places, i + 1, i);
        }
        EntryIsAttended(entries[i], old(state.seen), old(submitted), sent, more);
        OneMoreAttended(entries, i, old(state.seen), sentBefore, submitted);
        if !retryableFound {
          OneMoreSettled(entries, i, before, handled);
        }
      }
      BackwardsIsOldestFirst(entries, old(submitted), sent, places, 0);
    }

    /** `poll_environment`. */
    method Poll(environment: Environment, response: Response, time: nat) returns (result: Outcome)
      requires Loaded() && Stored()
      modifies this
      ensures Loaded() && Stored()
      ensures old(handled) <= handled && old(served) <= served
      ensures SubmittedUnseen(old(submitted), submitted, Elements(old(state.seen)))
      ensures state.failures == old(state.failures)
      ensures state.nextPoll == old(state.nextPoll) || (state.nextPoll >= time + 15 && result.Raised?)
      ensures response.Unchanged? ==> result.Done? && state == old(state) && submitted == old(submitted)
      ensures response.Unavailable? ==>
        && result.Raised? && submitted == old(submitted)
        && state.nextPoll == time + RetryDelay(response.retryAfter, response.reset, old(state.failures), time)
      ensures !response.Unavailable? ==> state.nextPoll == old(state.nextPoll)
      ensures response.Page? && result.Done? ==>
        && AllAttended(response.entries, 0, old(state.seen), submitted) && AllSettled(response.entries, 0, handled)
        && state.etags == if response.etag.Some? && |response.etag.value| <= 512
                          then old(state.etags)[environment := response.etag.value] else old(state.etags)
      ensures response.Page? ==> OldestFirst(response.entries, old(submitted), submitted)
      ensures !response.Page? ==> submitted == old(submitted) && (result.Done? ==> response.Unchanged?)
    {
      if response.Page? {
        BackwardsIsOldestFirst(response.entries, submitted, [], [], 0);
        assert submitted + [] == submitted;
      }
      if response.Unchanged? {
        return Done;
      }
      if response.Unavailable? {
        var delay := RetryDelay(response.retryAfter, response.reset, state.failures, time);
        DelayIsBounded(response.retryAfter, response.reset, time, state.failures, state.failures);
        state := state.(nextPoll := time + delay);
        return Raised;
      }
      if !response.Page? || |response.entries| > 20 {
        return Raised;
      }
      var retryableFound: bool;
      retryableFound, result := SubmitPage(response.entries);
      if !result.Done? {
        return;
      }
      if retryableFound {
        return Raised;
      }
      if response.etag.Some? && |response.etag.value| <= MAX_ETAG {
        result := StoreTag(environment, response.etag.value, response.entries);
      }
    }

    /** Store the tag of a page that is settled. */
    method StoreTag(environment: Environment, etag: string, entries: seq<Entry>) returns (result: Outcome)
      requires Loaded() && Stored() && |etag| <= MAX_ETAG
      requires Settled(Served(environment, etag, entries), handled)
      modifies this
      ensures Loaded() && Stored() && !result.Raised?
      ensures handled == old(handled) && old(served) <= served && submitted == old(submitted)
      ensures state == old(state).(etags := old(state.etags)[environment := etag])
    {
      ghost var page := Served(environment, etag, entries);
      EarnsTag(state, recorded, handled, served, page);
      StaysSound(OnDisk(), durable, handled, served, handled, served + {page});
      served := served + {page};
      state := state.(etags := state.etags[environment := etag]);
      result := Write();
    }

    /** The end of `main`, before the state is written. */
    method Reschedule(now: nat, result: Outcome)
      requires Loaded() && Stored() && (state.nextPoll <= now || state.nextPoll >= now + 15)
      modifies this`state
      ensures Loaded() && Stored()
      ensures result.Done? || result.Raised? ==> state.nextPoll >= now + 15
      ensures result.Done? ==> state == old(state).(failures := 0, nextPoll := now + 15)
      ensures result.Raised? ==>
        && state.failures == (if old(state.failures) < 7 then old(state.failures) + 1 else 7)
        && state == old(state).(failures := state.failures, nextPoll := if old(state.nextPoll) > now
            then old(state.nextPoll) else now + RetryDelay(None, None, state.failures, now))
      ensures !result.Done? && !result.Raised? ==> state == old(state)
    {
      if result.Done? {
        Reschedules(state, recorded, handled, served, 0, now + 15);
        state := state.(failures := 0, nextPoll := now + 15);
      } else if result.Raised? {
        var failures := if state.failures + 1 < 7 then state.failures + 1 else 7;
        DelayIsBounded(None, None, now, failures, failures);
        var nextPoll :=
          if state.nextPoll <= now then now + RetryDelay(None, None, failures, now) else state.nextPoll;
        Reschedules(state, recorded, handled, served, failures, nextPoll);
        state := state.(failures := failures, nextPoll := nextPoll);
      }
    }

    /** `main`: one invocation at time `now`, with the answers of the server for
        the two environments and the time at which each of them arrives. It can
        stop anywhere; whatever is on disk then is sound. */
    method RunOnce(now: nat, staging: Response, production: Response, stagingTime: nat, productionTime: nat)
      returns (result: Outcome)
      requires Stored() && now <= stagingTime && now <= productionTime
      modifies this
      ensures Stored()
      ensures old(handled) <= handled && old(served) <= served && old(submitted) <= submitted
      ensures now < old(OnDisk()).nextPoll ==>
        disk == old(disk) && handled == old(handled) && submitted == old(submitted) && result.Done?
      ensures now >= old(OnDisk()).nextPoll && (result.Done? || result.Raised?) ==> OnDisk().nextPoll >= now + 15
      ensures old(OnDisk()).nextPoll <= now && result.Done? ==>
        OnDisk().failures == 0 && OnDisk().nextPoll == now + 15 && durable == recorded
      ensures now >= old(OnDisk()).nextPoll && result.Done? ==>
        && (staging.Unchanged? || (staging.Page? && AllSettled(staging.entries, 0, handled)))
        && (production.Unchanged? || (production.Page? && AllSettled(production.entries, 0, handled)))
      ensures !staging.Unchanged? && !staging.Page? ==> submitted == old(submitted)
      ensures old(OnDisk()).nextPoll <= now && result.Raised? ==>
        OnDisk().failures == if old(OnDisk()).failures < 7 then old(OnDisk()).failures + 1 else 7
    {
      hide Sound, SubmittedUnseen, OldestFirst, AllAttended, AllSettled, RetryDelay;
      state := OnDisk();
      recorded := durable;
      if now < state.nextPoll {
        return Done;
      }
      result := Poll(Staging, staging, stagingTime);
      ghost var before := handled;
      if result.Done? {
        result := Poll(Production, production, productionTime);
        if staging.Page? { StaysSettled(staging.entries, before, handled); }
      }
      Reschedule(now, result);
      if !result.Stopped? {
        var written := Write();
        if !written.Done? {
          result := written;
        }
      }
    }
  }
}
