/**
  Soundboard plays: a relayed play is fetched and decoded asynchronously, and
  meanwhile stops, mutes, newer plays and leaving the call may overtake it. A
  per-user epoch, bumped by each of these, is what keeps a late completion
  from starting.
*/
module SoundboardModel {
  import opened Wrappers

  type User = u: string | u != "" witness "u"

  /** A tracked sound. A local preview has no user. `play` numbers the relayed plays as they arrive. */
  datatype Entry = Entry(user: Option<User>, clip: string, epoch: nat, play: nat)

  datatype Stage = Fetching | Decoding

  /** A play whose fetch or decode is still running, with the epoch it claimed. */
  datatype InFlight = InFlight(user: User, clip: string, epoch: nat, stage: Stage)

  datatype State = State(
    me: Option<User>, playing: seq<Entry>, epochs: map<User, nat>, inFlight: map<nat, InFlight>, next: nat)

  /**
    `admitted` and `usable` are the gates that depend on settings, room and
    mute state: before the play is claimed, and again after its fetch.
  */
  datatype Event =
    | Play(user: User, clip: string, admitted: bool, hasSource: bool)
    | Fetched(play: nat, usable: bool, viaContext: bool)
    | FetchFailed(play: nat)
    | Decoded(play: nat, hasSource: bool)
    | DecodeFailed(play: nat)
    | StopFor(user: User)        // a stop from the room, a mute, or the owner's disable
    | StopOwn                    // our own sound, on leaving voice
    | StopAll                    // everything, on leaving the call
    | Ended(user: User, clip: string)
    | ElementEnded(index: nat)   // the end of an <audio> element
    | Preview(clip: string)

  function Epoch(s: State, u: User): nat {
    if u in s.epochs then s.epochs[u] else 0
  }

  function Bump(s: State, u: User): State {
    s.(epochs := s.epochs[u := Epoch(s, u) + 1])
  }

  function Without(es: seq<Entry>, drop: Entry -> bool): (kept: seq<Entry>)
    ensures forall e :: e in kept <==> e in es && !drop(e)
    ensures |kept| <= |es|
  {
    if es == [] then [] else (if drop(es[0]) then [] else [es[0]]) + Without(es[1..], drop)
  }

  /** The tracked sounds of one user, or the local previews. */
  function Of(es: seq<Entry>, u: Option<User>): seq<Entry> {
    if es == [] then []
    else Of(es[..|es| - 1], u) + if es[|es| - 1].user == u then [es[|es| - 1]] else []
  }

  lemma OfAppend(es: seq<Entry>, e: Entry, u: Option<User>)
    ensures Of(es + [e], u) == Of(es, u) + if e.user == u then [e] else []
  {
    assert (es + [e])[..|es|] == es;
  }

  lemma {:induction false} OfConcat(a: seq<Entry>, b: seq<Entry>, u: Option<User>)
    ensures Of(a + b, u) == Of(a, u) + Of(b, u)
    decreases |b|
  {
    if b == [] {
      assert a + b == a;
    } else {
      var n := |b| - 1;
      OfConcat(a, b[..n], u);
      OfAppend(a + b[..n], b[n], u);
      assert a + b == (a + b[..n]) + [b[n]];
      assert Of(a, u) + (Of(b[..n], u) + if b[n].user == u then [b[n]] else []) ==
             (Of(a, u) + Of(b[..n], u)) + if b[n].user == u then [b[n]] else [];
    }
  }

  /** Dropping some sounds leaves those of a user alone when none of them is dropped, and removes them when all are. */
  lemma {:induction false} OfWithout(es: seq<Entry>, drop: Entry -> bool, u: Option<User>)
    ensures (forall e :: e in es && e.user == u ==> !drop(e)) ==> Of(Without(es, drop), u) == Of(es, u)
    ensures (forall e :: e in es && e.user == u ==> drop(e)) ==> Of(Without(es, drop), u) == []
  {
    if es != [] {
      var head, rest := [es[0]], es[1..];
      assert es == head + rest;
      OfWithout(rest, drop, u);
      OfConcat(head, rest, u);
      OfConcat(if drop(es[0]) then [] else head, Without(rest, drop), u);
      OfAppend([], es[0], u);
      assert [] + [es[0]] == head;
    }
  }

  lemma {:induction false} WithoutAll(es: seq<Entry>, drop: Entry -> bool)
    requires forall e :: e in es ==> drop(e)
    ensures Without(es, drop) == []
  {
    if es != [] {
      WithoutAll(es[1..], drop);
    }
  }

  function ByUser(u: User): Entry -> bool {
    (e: Entry) => e.user == Some(u)
  }

  function ByClip(u: User, clip: string): Entry -> bool {
    (e: Entry) => e.user == Some(u) && e.clip == clip
  }

  /** Entries that leaving voice removes: our own and those without a user, or all when we have no id. */
  function BelongingTo(me: Option<User>): Entry -> bool {
    (e: Entry) => !(me.Some? && e.user.Some? && e.user != me)
  }

  function DropUser(s: State, u: User): State {
    s.(playing := Without(s.playing, ByUser(u)))
  }

  function Land(s: State, play: nat): State
    requires play in s.inFlight
  {
    var f := s.inFlight[play];
    s.(playing := s.playing + [Entry(Some(f.user), f.clip, f.epoch, play)], inFlight := s.inFlight - {play})
  }

  function Forget(s: State, play: nat): State {
    s.(inFlight := s.inFlight - {play})
  }

  predicate Current(s: State, play: nat) {
    play in s.inFlight && s.inFlight[play].epoch == Epoch(s, s.inFlight[play].user)
  }

  function Step(s: State, e: Event): State {
    match e
    case Play(u, clip, admitted, hasSource) =>
      if !admitted then s
      else
        var t := Bump(DropUser(s, u), u);
        t.(inFlight := if hasSource then t.inFlight[s.next := InFlight(u, clip, Epoch(t, u), Fetching)] else t.inFlight,
           next := s.next + 1)
    case Fetched(p, usable, viaContext) =>
      if p !in s.inFlight || s.inFlight[p].stage != Fetching then s
      else if !Current(s, p) || !usable then Forget(s, p)
      else if viaContext then s.(inFlight := s.inFlight[p := s.inFlight[p].(stage := Decoding)])
      else Land(s, p)
    case FetchFailed(p) =>
      if p in s.inFlight && s.inFlight[p].stage == Fetching then Forget(s, p) else s
    case Decoded(p, hasSource) =>
      if p !in s.inFlight || s.inFlight[p].stage != Decoding then s
      else if !Current(s, p) || !hasSource then Forget(s, p)
      else Land(s, p)
    case DecodeFailed(p) =>
      if p !in s.inFlight || s.inFlight[p].stage != Decoding then s
      else if !Current(s, p) then Forget(s, p)
      else Land(s, p)
    case StopFor(u) => DropUser(Bump(s, u), u)
    case StopOwn =>
      var t := s.(playing := Without(s.playing, BelongingTo(s.me)));
      if s.me.Some? then Bump(t, s.me.value) else t
    case StopAll =>
      var t := s.(playing := []);
      if s.me.Some? then Bump(t, s.me.value) else t
    case Ended(u, clip) => s.(playing := Without(s.playing, ByClip(u, clip)))
    case ElementEnded(i) => if i < |s.playing| then s.(playing := s.playing[..i] + s.playing[i + 1..]) else s
    case Preview(clip) => s.(playing := s.playing + [Entry(None, clip, 0, 0)])
  }

  function Init(me: Option<User>): State {
    State(me, [], map[], map[], 0)
  }

  function Run(s: State, events: seq<Event>): State
    decreases |events|
  {
    if events == [] then s else Run(Step(s, events[0]), events[1..])
  }

  // ----- The invariant -----

  predicate OnePerUser(es: seq<Entry>) {
    forall i, j :: 0 <= i < |es| && 0 <= j < |es| && es[i].user.Some? && es[i].user == es[j].user ==> i == j
  }

  ghost predicate Inv(s: State) {
    && OnePerUser(s.playing)
    && (forall e :: e in s.playing && e.user.Some? ==> e.epoch == Epoch(s, e.user.value))
    && (forall p :: p in s.inFlight ==> p < s.next && s.inFlight[p].epoch <= Epoch(s, s.inFlight[p].user))
    && (forall p, q :: p in s.inFlight && q in s.inFlight && SameClaim(s.inFlight[p], s.inFlight[q]) ==> p == q)
    && (forall e, p :: e in s.playing && p in s.inFlight && e.user == Some(s.inFlight[p].user) ==>
          s.inFlight[p].epoch < Epoch(s, s.inFlight[p].user))
  }

  predicate SameClaim(f: InFlight, g: InFlight) {
    f.user == g.user && f.epoch == g.epoch
  }

  lemma {:induction false} WithoutOnePerUser(es: seq<Entry>, drop: Entry -> bool)
    requires OnePerUser(es)
    ensures OnePerUser(Without(es, drop))
  {
    if es != [] {
      WithoutOnePerUser(es[1..], drop);
      var rest := Without(es[1..], drop);
      forall e | e in rest
        ensures !(e.user.Some? && e.user == es[0].user)
      {
        var k :| 0 <= k < |es[1..]| && es[1..][k] == e;
        assert es[k + 1] == e;
      }
    }
  }

  lemma WithoutKeepsInv(s: State, drop: Entry -> bool)
    requires Inv(s)
    ensures Inv(s.(playing := Without(s.playing, drop)))
  {
    WithoutOnePerUser(s.playing, drop);
  }

  lemma BumpKeepsInv(s: State, u: User)
    requires Inv(s) && forall e :: e in s.playing ==> e.user != Some(u)
    ensures Inv(Bump(s, u))
    ensures forall p :: p in s.inFlight && s.inFlight[p].user == u ==> s.inFlight[p].epoch < Epoch(Bump(s, u), u)
  {
    var t := Bump(s, u);
    assert Epoch(t, u) == Epoch(s, u) + 1 && forall v: User :: v != u ==> Epoch(t, v) == Epoch(s, v);
  }

  lemma ForgetKeepsInv(s: State, play: nat)
    requires Inv(s)
    ensures Inv(Forget(s, play))
  {
    var t := Forget(s, play);
    assert forall p :: p in t.inFlight ==> p in s.inFlight && t.inFlight[p] == s.inFlight[p];
    assert forall v: User :: Epoch(t, v) == Epoch(s, v);
  }

  lemma LandKeepsInv(s: State, play: nat)
    requires Inv(s) && Current(s, play)
    ensures Inv(Land(s, play))
  {
    var f, t := s.inFlight[play], Forget(s, play);
    ForgetKeepsInv(s, play);
    assert Epoch(t, f.user) == Epoch(s, f.user);
    forall p | p in t.inFlight && t.inFlight[p].user == f.user
      ensures t.inFlight[p].epoch < Epoch(s, f.user)
    {
      assert p in s.inFlight && !SameClaim(s.inFlight[p], f);
    }
    TrackKeepsInv(t, Entry(Some(f.user), f.clip, f.epoch, play));
  }

  lemma TrackKeepsInv(s: State, e: Entry)
    requires Inv(s) && e.user.Some? && e.epoch == Epoch(s, e.user.value)
    requires forall x :: x in s.playing ==> x.user != e.user
    requires forall p :: p in s.inFlight && s.inFlight[p].user == e.user.value ==> s.inFlight[p].epoch < e.epoch
    ensures Inv(s.(playing := s.playing + [e]))
  {
    var t := s.(playing := s.playing + [e]);
    assert forall v: User :: Epoch(t, v) == Epoch(s, v);
    assert OnePerUser(t.playing);
  }

  lemma StartKeepsInv(s: State, f: InFlight)
    requires Inv(s) && f.epoch == Epoch(s, f.user)
    requires forall e :: e in s.playing ==> e.user != Some(f.user)
    requires forall p :: p in s.inFlight && s.inFlight[p].user == f.user ==> s.inFlight[p].epoch < f.epoch
    ensures Inv(s.(inFlight := s.inFlight[s.next := f], next := s.next + 1))
  {
    var t := s.(inFlight := s.inFlight[s.next := f], next := s.next + 1);
    assert forall v: User :: Epoch(t, v) == Epoch(s, v);
    assert forall p :: p in s.inFlight ==> p != s.next && !SameClaim(s.inFlight[p], f);
  }

  lemma ClaimKeepsInv(s: State, u: User, clip: string, hasSource: bool)
    requires Inv(s)
    ensures Inv(Step(s, Play(u, clip, true, hasSource)))
  {
    WithoutKeepsInv(s, ByUser(u));
    BumpKeepsInv(DropUser(s, u), u);
    var t := Bump(DropUser(s, u), u);
    ClaimedKeepsInv(t, u, clip, hasSource);
    PlayIs(s, t, u, clip, hasSource);
  }

  lemma PlayIs(s: State, t: State, u: User, clip: string, hasSource: bool)
    requires t == Bump(DropUser(s, u), u)
    ensures var flight := if hasSource then t.inFlight[t.next := InFlight(u, clip, Epoch(t, u), Fetching)] else t.inFlight;
            Step(s, Play(u, clip, true, hasSource)) == t.(inFlight := flight, next := t.next + 1)
  {
  }

  lemma ClaimedKeepsInv(t: State, u: User, clip: string, hasSource: bool)
    requires Inv(t) && forall e :: e in t.playing ==> e.user != Some(u)
    requires forall p :: p in t.inFlight && t.inFlight[p].user == u ==> t.inFlight[p].epoch < Epoch(t, u)
    ensures var flight := if hasSource then t.inFlight[t.next := InFlight(u, clip, Epoch(t, u), Fetching)] else t.inFlight;
            Inv(t.(inFlight := flight, next := t.next + 1))
  {
    if hasSource {
      StartKeepsInv(t, InFlight(u, clip, Epoch(t, u), Fetching));
    } else {
      SkipKeepsInv(t);
    }
  }

  lemma SkipKeepsInv(s: State)
    requires Inv(s)
    ensures Inv(s.(next := s.next + 1))
  {
    assert forall v: User :: Epoch(s.(next := s.next + 1), v) == Epoch(s, v);
  }

  lemma AdvanceKeepsInv(s: State, play: nat)
    requires Inv(s) && play in s.inFlight
    ensures Inv(s.(inFlight := s.inFlight[play := s.inFlight[play].(stage := Decoding)]))
  {
    var t := s.(inFlight := s.inFlight[play := s.inFlight[play].(stage := Decoding)]);
    assert forall v: User :: Epoch(t, v) == Epoch(s, v);
    assert forall p :: p in t.inFlight ==> p in s.inFlight && SameClaim(t.inFlight[p], s.inFlight[p]);
  }

  lemma StopKeepsInv(s: State, e: Event)
    requires Inv(s) && (e.StopFor? || e.StopOwn? || e.StopAll?)
    ensures Inv(Step(s, e))
  {
    match e
    case StopFor(u) => StopForKeepsInv(s, u);
    case StopOwn =>
      WithoutKeepsInv(s, BelongingTo(s.me));
      BumpOwnKeepsInv(s.(playing := Without(s.playing, BelongingTo(s.me))));
    case StopAll => BumpOwnKeepsInv(s.(playing := []));
  }

  lemma StopForKeepsInv(s: State, u: User)
    requires Inv(s)
    ensures Inv(Bump(DropUser(s, u), u))
  {
    WithoutKeepsInv(s, ByUser(u));
    BumpKeepsInv(DropUser(s, u), u);
  }

  lemma BumpOwnKeepsInv(s: State)
    requires Inv(s) && forall e :: e in s.playing ==> e.user.None? || e.user != s.me
    ensures s.me.Some? ==> Inv(Bump(s, s.me.value))
  {
    if s.me.Some? {
      BumpKeepsInv(s, s.me.value);
    }
  }

  lemma CompletionKeepsInv(s: State, e: Event)
    requires Inv(s) && (e.Fetched? || e.FetchFailed? || e.Decoded? || e.DecodeFailed?)
    ensures Inv(Step(s, e))
  {
    ForgetKeepsInv(s, e.play);
    if Current(s, e.play) {
      LandKeepsInv(s, e.play);
      AdvanceKeepsInv(s, e.play);
    }
  }

  lemma EndKeepsInv(s: State, e: Event)
    requires Inv(s) && (e.Ended? || e.ElementEnded? || e.Preview?)
    ensures Inv(Step(s, e))
  {
    match e
    case Ended(u, clip) => WithoutKeepsInv(s, ByClip(u, clip));
    case ElementEnded(i) =>
      if i < |s.playing| {
        OneLess(s.playing, i);
        OthersKeepInv(s, s.playing[..i] + s.playing[i + 1..]);
      }
    case Preview(clip) =>
      OnePreviewMore(s.playing, Entry(None, clip, 0, 0));
      OthersKeepInv(s, s.playing + [Entry(None, clip, 0, 0)]);
  }

  lemma OneLess(es: seq<Entry>, i: nat)
    requires OnePerUser(es) && i < |es|
    ensures OnePerUser(es[..i] + es[i + 1..])
  {
  }

  lemma OnePreviewMore(es: seq<Entry>, e: Entry)
    requires OnePerUser(es) && e.user == None
    ensures OnePerUser(es + [e])
  {
  }

  lemma OthersKeepInv(s: State, es: seq<Entry>)
    requires Inv(s) && OnePerUser(es) && forall e :: e in es ==> e in s.playing || e.user == None
    ensures Inv(s.(playing := es))
  {
    assert forall v: User :: Epoch(s.(playing := es), v) == Epoch(s, v);
  }

  lemma StepKeepsInv(s: State, e: Event)
    requires Inv(s)
    ensures Inv(Step(s, e))
  {
    match e
    case Play(u, clip, admitted, hasSource) =>
      if admitted {
        ClaimKeepsInv(s, u, clip, hasSource);
      }
    case Ended(_, _) => EndKeepsInv(s, e);
    case ElementEnded(_) => EndKeepsInv(s, e);
    case Preview(_) => EndKeepsInv(s, e);
    case StopFor(_) => StopKeepsInv(s, e);
    case StopOwn => StopKeepsInv(s, e);
    case StopAll => StopKeepsInv(s, e);
    case _ => CompletionKeepsInv(s, e);
  }

  lemma {:induction false} RunKeepsInv(s: State, events: seq<Event>)
    requires Inv(s)
    ensures Inv(Run(s, events))
    decreases |events|
  {
    if events != [] {
      StepKeepsInv(s, events[0]);
      RunKeepsInv(Step(s, events[0]), events[1..]);
    }
  }

  /** Every user has at most one tracked sound, and its epoch is the user's current one. */
  lemma OneSoundPerUser(me: Option<User>, events: seq<Event>)
    ensures var s := Run(Init(me), events);
            && OnePerUser(s.playing)
            && forall e :: e in s.playing && e.user.Some? ==> e.epoch == Epoch(s, e.user.value)
  {
    RunKeepsInv(Init(me), events);
  }

  // ----- Plays that are over stay over -----

  /** No play of `u` numbered below `n` is tracked, or can still become so. */
  ghost predicate Over(s: State, u: User, n: nat) {
    && n <= s.next
    && (forall e :: e in s.playing && e.user == Some(u) ==> e.play >= n)
    && (forall p :: p in s.inFlight && s.inFlight[p].user == u && p < n ==> !Current(s, p))
  }

  lemma StepKeepsOver(s: State, e: Event, u: User, n: nat)
    requires Inv(s) && Over(s, u, n)
    ensures Over(Step(s, e), u, n)
  {
    if e.Play? {
      PlayKeepsOver(s, e, u, n);
    } else if e.StopFor? || e.StopOwn? || e.StopAll? {
      StopKeepsOver(s, e, u, n);
    } else if e.Ended? || e.ElementEnded? || e.Preview? {
      EndKeepsOver(s, e, u, n);
    }
  }

  lemma StopKeepsOver(s: State, e: Event, u: User, n: nat)
    requires Inv(s) && Over(s, u, n) && (e.StopFor? || e.StopOwn? || e.StopAll?)
    ensures Over(Step(s, e), u, n)
  {
    assert forall v: User :: Epoch(Step(s, e), v) >= Epoch(s, v);
  }

  lemma EndKeepsOver(s: State, e: Event, u: User, n: nat)
    requires Inv(s) && Over(s, u, n) && (e.Ended? || e.ElementEnded? || e.Preview?)
    ensures Over(Step(s, e), u, n)
  {
  }

  lemma PlayKeepsOver(s: State, e: Event, u: User, n: nat)
    requires Inv(s) && Over(s, u, n) && e.Play?
    ensures Over(Step(s, e), u, n)
  {
    assert forall v: User :: Epoch(Step(s, e), v) >= Epoch(s, v);
  }

  lemma {:induction false} RunKeepsOver(s: State, events: seq<Event>, u: User, n: nat)
    requires Inv(s) && Over(s, u, n)
    ensures Over(Run(s, events), u, n)
    decreases |events|
  {
    if events != [] {
      StepKeepsInv(s, events[0]);
      StepKeepsOver(s, events[0], u, n);
      RunKeepsOver(Step(s, events[0]), events[1..], u, n);
    }
  }

  /** The events after which everything of `u` so far is over. */
  predicate Silences(s: State, e: Event, u: User) {
    match e
    case Play(v, _, admitted, _) => v == u && admitted
    case StopFor(v) => v == u
    case StopOwn => s.me == Some(u)
    case StopAll => s.me == Some(u)
    case _ => false
  }

  /**
    Once a stop, a mute or a newer play of a user has been handled, no earlier
    play of that user is ever tracked again, whatever completes afterwards.
  */
  lemma SilencedForGood(me: Option<User>, before: seq<Event>, e: Event, after: seq<Event>, u: User)
    requires Silences(Run(Init(me), before), e, u)
    ensures var n := Run(Init(me), before).next;
            forall x :: x in Run(Step(Run(Init(me), before), e), after).playing && x.user == Some(u) ==> x.play >= n
  {
    RunKeepsInv(Init(me), before);
    var s := Run(Init(me), before);
    StepKeepsInv(s, e);
    assert Over(Step(s, e), u, s.next);
    RunKeepsOver(Step(s, e), after, u, s.next);
  }

  /** A sound of `u` with this clip is tracked. */
  predicate Plays(es: seq<Entry>, u: User, clip: string) {
    exists i :: 0 <= i < |es| && es[i].user == Some(u) && es[i].clip == clip
  }

  /** A clip that ends is tracked no more: its user, who has one sound at most, then has none. */
  lemma EndedIsUntracked(me: Option<User>, events: seq<Event>, u: User, clip: string)
    ensures var before, after := Run(Init(me), events).playing, Step(Run(Init(me), events), Ended(u, clip)).playing;
            Of(after, Some(u)) == if Plays(before, u, clip) then [] else Of(before, Some(u))
  {
    OneSoundPerUser(me, events);
    EndedOf(Run(Init(me), events), u, clip);
  }

  lemma EndedOf(s: State, u: User, clip: string)
    requires OnePerUser(s.playing)
    ensures Of(Step(s, Ended(u, clip)).playing, Some(u)) == if Plays(s.playing, u, clip) then [] else Of(s.playing, Some(u))
  {
    WithoutClip(s.playing, u, clip);
  }

  lemma WithoutClip(es: seq<Entry>, u: User, clip: string)
    requires OnePerUser(es)
    ensures Of(Without(es, ByClip(u, clip)), Some(u)) == if Plays(es, u, clip) then [] else Of(es, Some(u))
  {
    OfWithout(es, ByClip(u, clip), Some(u));
    if Plays(es, u, clip) {
      var i :| 0 <= i < |es| && es[i].user == Some(u) && es[i].clip == clip;
      assert forall e :: e in es && e.user == Some(u) ==> e == es[i];
    }
  }

  /**
    Leaving the call clears every entry but silences only ourselves: a play of
    another user is tracked again afterwards, without any new play, exactly
    when it was in flight and current.
  */
  lemma LeavingSparesOthersInFlight(s: State, u: User, p: nat)
    requires Inv(s) && s.me != Some(u)
    requires p in s.inFlight && s.inFlight[p].user == u && s.inFlight[p].stage == Fetching
    ensures Step(s, StopAll).playing == []
    ensures (exists e :: e in Run(s, [StopAll, Fetched(p, true, false)]).playing && e.play == p) <==> Current(s, p)
  {
    var t := Step(s, StopAll);
    var events := [StopAll, Fetched(p, true, false)];
    assert events[1..] == [Fetched(p, true, false)] && events[1..][1..] == [];
    assert Run(t, [Fetched(p, true, false)]) == Run(Step(t, Fetched(p, true, false)), []);
    assert Epoch(t, u) == Epoch(s, u);
    if Current(s, p) {
      assert Entry(Some(u), s.inFlight[p].clip, s.inFlight[p].epoch, p) in Step(t, Fetched(p, true, false)).playing;
    }
  }
}

/** The page's handlers over its own variables. */
module Soundboard {
  import opened Wrappers
  import opened SoundboardModel

  class SoundboardPage {
    const me: Option<User>
    var allPlaying: seq<Entry>
    var playEpoch: map<User, nat>
    var pending: map<nat, InFlight>
    var arrivals: nat

    constructor (me: Option<User>)
      ensures View() == Init(me)
    {
      this.me := me;
      allPlaying, playEpoch, pending, arrivals := [], map[], map[], 0;
    }

    function View(): State
      reads this
    {
      State(me, allPlaying, playEpoch, pending, arrivals)
    }

    function EpochOf(u: User): nat
      reads this
    {
      if u in playEpoch then playEpoch[u] else 0
    }

    /** Of all users' sounds at most the one of `play` is new, and it is tracked or not as told. */
    ghost predicate TracksOnly(before: State, play: nat, tracked: bool)
      requires play in before.inFlight
      reads this
    {
      var f := before.inFlight[play];
      && Of(allPlaying, Some(f.user)) ==
           Of(before.playing, Some(f.user)) + (if tracked then [Entry(Some(f.user), f.clip, f.epoch, play)] else [])
      && forall v :: v != Some(f.user) ==> Of(allPlaying, v) == Of(before.playing, v)
    }

    /** No other play's fetch or decode is touched. */
    ghost predicate OthersPending(before: map<nat, InFlight>, play: nat)
      reads this
    {
      forall q :: q != play ==> (q in pending <==> q in before) && (q in before ==> q in pending && pending[q] == before[q])
    }

    method BumpEpoch(u: User) returns (epoch: nat)
      modifies this`playEpoch
      ensures View() == Bump(old(View()), u) && epoch == EpochOf(u)
      ensures EpochOf(u) == old(EpochOf(u)) + 1 && forall v: User :: v != u ==> EpochOf(v) == old(EpochOf(v))
    {
      epoch := EpochOf(u) + 1;
      playEpoch := playEpoch[u := epoch];
    }

    method StopEntriesFor(u: User)
      modifies this`allPlaying
      ensures View() == DropUser(old(View()), u)
      ensures Of(allPlaying, Some(u)) == [] && forall v :: v != Some(u) ==> Of(allPlaying, v) == Of(old(allPlaying), v)
    {
      forall v
        ensures v == Some(u) ==> Of(Without(allPlaying, ByUser(u)), v) == []
        ensures v != Some(u) ==> Of(Without(allPlaying, ByUser(u)), v) == Of(allPlaying, v)
      {
        OfWithout(allPlaying, ByUser(u), v);
      }
      allPlaying := Without(allPlaying, ByUser(u));
    }

    /** A relayed play; `play` is the number of the fetch it starts, if any. */
    method HandlePlay(u: User, clip: string, admitted: bool, hasSource: bool) returns (play: Option<nat>)
      modifies this`allPlaying, this`playEpoch, this`pending, this`arrivals
      ensures View() == Step(old(View()), Play(u, clip, admitted, hasSource))
      ensures play == if admitted && hasSource then Some(old(arrivals)) else None
      ensures admitted ==>
                && Of(allPlaying, Some(u)) == [] && (forall v :: v != Some(u) ==> Of(allPlaying, v) == Of(old(allPlaying), v))
                && EpochOf(u) == old(EpochOf(u)) + 1 && (forall v: User :: v != u ==> EpochOf(v) == old(EpochOf(v)))
                && (play.Some? ==> Current(View(), play.value))
      ensures !admitted ==> View() == old(View())
      ensures pending == if play.Some? then old(pending)[play.value := InFlight(u, clip, EpochOf(u), Fetching)] else old(pending)
    {
      if !admitted {
        return None;
      }
      StopEntriesFor(u);
      var myEpoch := BumpEpoch(u);
      var number := arrivals;
      arrivals := arrivals + 1;
      if !hasSource {
        return None;
      }
      pending := pending[number := InFlight(u, clip, myEpoch, Fetching)];
      return Some(number);
    }

    /** Removes a pending play; its claim is stale when a stop or a newer play came in between. */
    method Settle(play: nat) returns (f: InFlight, stale: bool)
      requires play in pending
      modifies this`pending
      ensures f == old(pending)[play] && View() == Forget(old(View()), play)
      ensures stale == !Current(old(View()), play)
    {
      f := pending[play];
      pending := pending - {play};
      stale := EpochOf(f.user) != f.epoch;
    }

    method Track(f: InFlight, play: nat)
      modifies this`allPlaying
      ensures View() == old(View()).(playing := old(allPlaying) + [Entry(Some(f.user), f.clip, f.epoch, play)])
      ensures Of(allPlaying, Some(f.user)) == Of(old(allPlaying), Some(f.user)) + [Entry(Some(f.user), f.clip, f.epoch, play)]
      ensures forall v :: v != Some(f.user) ==> Of(allPlaying, v) == Of(old(allPlaying), v)
    {
      forall v
        ensures Of(allPlaying + [Entry(Some(f.user), f.clip, f.epoch, play)], v) ==
                Of(allPlaying, v) + if v == Some(f.user) then [Entry(Some(f.user), f.clip, f.epoch, play)] else []
      {
        OfAppend(allPlaying, Entry(Some(f.user), f.clip, f.epoch, play), v);
      }
      allPlaying := allPlaying + [Entry(Some(f.user), f.clip, f.epoch, play)];
    }

    method OnFetched(play: nat, usable: bool, viaContext: bool)
      requires play in pending && pending[play].stage == Fetching
      modifies this`allPlaying, this`pending
      ensures View() == Step(old(View()), Fetched(play, usable, viaContext))
      ensures TracksOnly(old(View()), play, old(Current(View(), play)) && usable && !viaContext)
      ensures play in pending <==> old(Current(View(), play)) && usable && viaContext
      ensures play in pending ==> pending[play] == old(pending)[play].(stage := Decoding)
      ensures OthersPending(old(pending), play)
    {
      var f, stale := Settle(play);
      if stale || !usable {
        return;
      }
      if viaContext {
        pending := pending[play := f.(stage := Decoding)];
      } else {
        Track(f, play);
      }
    }

    method OnFetchFailed(play: nat)
      requires play in pending && pending[play].stage == Fetching
      modifies this`pending
      ensures View() == Step(old(View()), FetchFailed(play))
      ensures play !in pending && OthersPending(old(pending), play)
    {
      var f, stale := Settle(play);
    }

    /** `hasSource` is false when the clip turned out to be over already. */
    method OnDecoded(play: nat, hasSource: bool)
      requires play in pending && pending[play].stage == Decoding
      modifies this`allPlaying, this`pending
      ensures View() == Step(old(View()), Decoded(play, hasSource))
      ensures TracksOnly(old(View()), play, old(Current(View(), play)) && hasSource) && play !in pending && OthersPending(old(pending), play)
    {
      var f, stale := Settle(play);
      if stale || !hasSource {
        return;
      }
      Track(f, play);
    }

    /** Falls back to an `<audio>` element. */
    method OnDecodeFailed(play: nat)
      requires play in pending && pending[play].stage == Decoding
      modifies this`allPlaying, this`pending
      ensures View() == Step(old(View()), DecodeFailed(play))
      ensures TracksOnly(old(View()), play, old(Current(View(), play))) && play !in pending && OthersPending(old(pending), play)
    {
      var f, stale := Settle(play);
      if stale {
        return;
      }
      Track(f, play);
    }

    /** A stop from the room; muting a user and disabling them do the same to entries and epochs. */
    method HandleStop(u: User)
      modifies this`allPlaying, this`playEpoch
      ensures View() == Step(old(View()), StopFor(u))
      ensures Of(allPlaying, Some(u)) == [] && (forall v :: v != Some(u) ==> Of(allPlaying, v) == Of(old(allPlaying), v))
      ensures forall p :: p in pending && pending[p].user == u && pending[p].epoch <= old(EpochOf(u)) ==> !Current(View(), p)
    {
      var epoch := BumpEpoch(u);
      StopEntriesFor(u);
    }

    method StopAllSoundboardAudio()
      modifies this`allPlaying, this`playEpoch
      ensures View() == Step(old(View()), StopOwn)
      ensures Of(allPlaying, me) == [] && Of(allPlaying, None) == []
      ensures me.Some? ==> forall v: User :: Some(v) != me ==> Of(allPlaying, Some(v)) == Of(old(allPlaying), Some(v))
      ensures me.None? ==> allPlaying == []
      ensures forall v: User :: EpochOf(v) == old(EpochOf(v)) + if me == Some(v) then 1 else 0
    {
      forall v: Option<User>
        ensures v == me || v == None ==> Of(Without(allPlaying, BelongingTo(me)), v) == []
        ensures me.Some? && v.Some? && v != me ==> Of(Without(allPlaying, BelongingTo(me)), v) == Of(allPlaying, v)
      {
        OfWithout(allPlaying, BelongingTo(me), v);
      }
      if me.None? {
        WithoutAll(allPlaying, BelongingTo(me));
      }
      allPlaying := Without(allPlaying, BelongingTo(me));
      if me.Some? {
        var epoch := BumpEpoch(me.value);
      }
    }

    method StopAllSoundboardAudioAll()
      modifies this`allPlaying, this`playEpoch
      ensures View() == Step(old(View()), StopAll)
      ensures allPlaying == [] && forall v: User :: EpochOf(v) == old(EpochOf(v)) + if me == Some(v) then 1 else 0
    {
      allPlaying := [];
      if me.Some? {
        var epoch := BumpEpoch(me.value);
      }
    }

    method OnClipEnded(u: User, clip: string)
      modifies this`allPlaying
      ensures View() == Step(old(View()), Ended(u, clip))
      ensures forall e :: e in allPlaying <==> e in old(allPlaying) && !(e.user == Some(u) && e.clip == clip)
      ensures forall v :: v != Some(u) ==> Of(allPlaying, v) == Of(old(allPlaying), v)
      ensures (forall e :: e in old(allPlaying) && e.user == Some(u) ==> e.clip == clip) ==> Of(allPlaying, Some(u)) == []
    {
      forall v
        ensures v != Some(u) ==> Of(Without(allPlaying, ByClip(u, clip)), v) == Of(allPlaying, v)
      {
        OfWithout(allPlaying, ByClip(u, clip), v);
      }
      OfWithout(allPlaying, ByClip(u, clip), Some(u));
      allPlaying := Without(allPlaying, ByClip(u, clip));
    }

    method OnElementEnded(index: nat)
      modifies this`allPlaying
      ensures View() == Step(old(View()), ElementEnded(index))
      ensures |allPlaying| == |old(allPlaying)| - if index < |old(allPlaying)| then 1 else 0
      ensures forall i :: 0 <= i < |allPlaying| ==> allPlaying[i] == old(allPlaying)[if i < index then i else i + 1]
    {
      if index < |allPlaying| {
        allPlaying := allPlaying[..index] + allPlaying[index + 1..];
      }
    }

    method PlayLocal(clip: string)
      modifies this`allPlaying
      ensures View() == Step(old(View()), Preview(clip))
      ensures Of(allPlaying, None) == Of(old(allPlaying), None) + [Entry(None, clip, 0, 0)]
      ensures forall v :: v != None ==> Of(allPlaying, v) == Of(old(allPlaying), v)
    {
      forall v
        ensures Of(allPlaying + [Entry(None, clip, 0, 0)], v) == Of(allPlaying, v) + if v == None then [Entry(None, clip, 0, 0)] else []
      {
        OfAppend(allPlaying, Entry(None, clip, 0, 0), v);
      }
      allPlaying := allPlaying + [Entry(None, clip, 0, 0)];
    }
  }
}
