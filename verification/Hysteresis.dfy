/** The theory shared by the five diagnostic rules. A rule keeps one small machine per
    subject in a map, and each evaluation that reaches the map first prunes the entries that
    were not touched for a while. Everything a rule promises per subject is proved here once,
    for an arbitrary machine. */
module Hysteresis {
  import opened Types

  /** `react` is the per-subject step, `active` the flag "an Active draft is outstanding".
      `idleTtl` and `activeTtl` are the retention of entries without and with that flag;
      `None` keeps them for ever. */
  datatype Machine<!E(!new), !I(!new)> = Machine(
    initial: E,
    react: (E, I, Instant) -> (E, Option<SignalStatus>),
    active: E -> bool,
    idleTtl: Option<Duration>,
    activeTtl: Option<Duration>)

  datatype Tracked<E> = Tracked(core: E, lastTouchedAt: Option<Instant>)

  type Table<E> = map<EntityRef, Tracked<E>>

  function Ttl<E(!new), I(!new)>(m: Machine<E, I>, core: E): Option<Duration> {
    if m.active(core) then m.activeTtl else m.idleTtl
  }

  predicate Fresh<E(!new), I(!new)>(m: Machine<E, I>, t: Tracked<E>, now: Instant) {
    match (Ttl(m, t.core), t.lastTouchedAt)
    case (Some(ttl), Some(at)) => DurationSince(now, at) < ttl
    case _ => true
  }

  function Prune<E(!new), I(!new)>(m: Machine<E, I>, table: Table<E>, now: Instant): Table<E> {
    map s | s in table && Fresh(m, table[s], now) :: table[s]
  }

  /** One evaluation that reaches the subject's entry. */
  function Touch<E(!new), I(!new)>(m: Machine<E, I>, table: Table<E>, subject: EntityRef, input: I, now: Instant)
    : (Table<E>, Option<SignalStatus>)
  {
    var kept := Prune(m, table, now);
    var (core, out) := m.react(if subject in kept then kept[subject].core else m.initial, input, now);
    (kept[subject := Tracked(core, Some(now))], out)
  }

  // ---- Runs -------------------------------------------------------------------------------

  datatype Visit<I> = Visit(subject: EntityRef, input: I, at: Instant)

  predicate Monotone<I>(visits: seq<Visit<I>>) {
    forall i, j :: 0 <= i < j < |visits| ==> visits[i].at <= visits[j].at
  }

  function Run<E(!new), I(!new)>(m: Machine<E, I>, visits: seq<Visit<I>>): (r: (Table<E>, seq<Option<SignalStatus>>))
    ensures |r.1| == |visits|
  {
    if visits == [] then (map[], [])
    else
      var v := visits[|visits| - 1];
      var (table, outs) := Run(m, visits[..|visits| - 1]);
      var (table', out) := Touch(m, table, v.subject, v.input, v.at);
      (table', outs + [out])
  }

  function Own<I>(visits: seq<Visit<I>>, s: EntityRef): seq<Visit<I>> {
    if visits == [] then []
    else
      var front, v := Own(visits[..|visits| - 1], s), visits[|visits| - 1];
      if v.subject == s then front + [v] else front
  }

  /** The outputs at the visits of `s`. */
  function OwnOutputs<I>(visits: seq<Visit<I>>, outs: seq<Option<SignalStatus>>, s: EntityRef): seq<Option<SignalStatus>>
    requires |visits| == |outs|
  {
    if visits == [] then []
    else
      var n := |visits| - 1;
      var front := OwnOutputs(visits[..n], outs[..n], s);
      if visits[n].subject == s then front + [outs[n]] else front
  }

  /** One subject alone: its entry starts over when it is no longer fresh at the subject's
      own next visit. */
  function Solo<E(!new), I(!new)>(m: Machine<E, I>, own: seq<Visit<I>>): (r: (Option<Tracked<E>>, seq<Option<SignalStatus>>))
    ensures |r.1| == |own|
    ensures r.0.None? <==> own == []
    ensures own != [] ==> r.0.value.lastTouchedAt == Some(own[|own| - 1].at)
  {
    if own == [] then (None, [])
    else
      var v := own[|own| - 1];
      var (entry, outs) := Solo(m, own[..|own| - 1]);
      var (core, out) := m.react(Resumed(m, entry, v.at), v.input, v.at);
      (Some(Tracked(core, Some(v.at))), outs + [out])
  }

  function Resumed<E(!new), I(!new)>(m: Machine<E, I>, entry: Option<Tracked<E>>, now: Instant): E {
    if entry.Some? && Fresh(m, entry.value, now) then entry.value.core else m.initial
  }

  // ---- Subjects are independent ---------------------------------------------------------------

  /** The table at time `now` holds the subject's own entry, or has dropped a stale one. */
  ghost predicate Holds<E(!new), I(!new)>(m: Machine<E, I>, table: Table<E>, s: EntityRef, entry: Option<Tracked<E>>, now: Instant) {
    if s in table then entry == Some(table[s])
    else entry.Some? ==> !Fresh(m, entry.value, now)
  }

  /** Just before visit `v` the pruned table holds the subject's entry iff it is still fresh. */
  ghost predicate Ready<E(!new), I(!new)>(m: Machine<E, I>, table: Table<E>, s: EntityRef, entry: Option<Tracked<E>>, now: Instant) {
    Holds(m, Prune(m, table, now), s, entry, now)
    && (s in Prune(m, table, now) <==> entry.Some? && Fresh(m, entry.value, now))
  }

  lemma {:induction false} ReadyForVisit<E(!new), I(!new)>(m: Machine<E, I>, visits: seq<Visit<I>>, s: EntityRef)
    requires Monotone(visits) && visits != []
    ensures var front, v := visits[..|visits| - 1], visits[|visits| - 1];
            Ready(m, Run(m, front).0, s, Solo(m, Own(front, s)).0, v.at)
    decreases |visits|
  {
    var n := |visits| - 1;
    var front, v := visits[..n], visits[n];
    if n > 0 {
      ReadyForVisit(m, front, s);
      TouchIsSolo(m, Run(m, front[..n - 1]).0, front[n - 1], s, Own(front[..n - 1], s));
      StaysStale(m, Run(m, front).0, s, Solo(m, Own(front, s)).0, front[n - 1].at, v.at);
    }
  }

  /** On a monotone clock, pruning by other subjects' visits is unobservable: the outputs of a
      subject are those of its own visits alone. */
  lemma {:induction false} SubjectsAreIndependent<E(!new), I(!new)>(m: Machine<E, I>, visits: seq<Visit<I>>, s: EntityRef)
    requires Monotone(visits)
    ensures OwnOutputs(visits, Run(m, visits).1, s) == Solo(m, Own(visits, s)).1
    decreases |visits|
  {
    if visits != [] {
      var n := |visits| - 1;
      var front, v := visits[..n], visits[n];
      SubjectsAreIndependent(m, front, s);
      ReadyForVisit(m, visits, s);
      TouchIsSolo(m, Run(m, front).0, v, s, Own(front, s));
      assert Run(m, visits).1[..n] == Run(m, front).1;
    }
  }

  lemma TouchIsSolo<E(!new), I(!new)>(m: Machine<E, I>, table: Table<E>, v: Visit<I>, s: EntityRef, own: seq<Visit<I>>)
    requires Ready(m, table, s, Solo(m, own).0, v.at)
    ensures var (table', out) := Touch(m, table, v.subject, v.input, v.at);
            if v.subject == s
            then Holds(m, table', s, Solo(m, own + [v]).0, v.at) && Solo(m, own + [v]).1 == Solo(m, own).1 + [out]
            else Holds(m, table', s, Solo(m, own).0, v.at)
  {
    var kept, entry := Prune(m, table, v.at), Solo(m, own).0;
    assert (own + [v])[..|own|] == own;
    assert v.subject == s ==> Resumed(m, entry, v.at) == if s in kept then kept[s].core else m.initial;
  }

  lemma StaysStale<E(!new), I(!new)>(m: Machine<E, I>, table: Table<E>, s: EntityRef, entry: Option<Tracked<E>>, before: Instant, now: Instant)
    requires before <= now && Holds(m, table, s, entry, before)
    ensures Ready(m, table, s, entry, now)
  {
  }

  lemma LastOutput<E(!new), I(!new)>(m: Machine<E, I>, visits: seq<Visit<I>>)
    requires visits != [] && Monotone(visits)
    ensures var own := Own(visits, visits[|visits| - 1].subject);
            own != [] && Run(m, visits).1[|visits| - 1] == Solo(m, own).1[|own| - 1]
  {
    var s := visits[|visits| - 1].subject;
    SubjectsAreIndependent(m, visits, s);
    var outs := OwnOutputs(visits, Run(m, visits).1, s);
    assert outs[|outs| - 1] == Run(m, visits).1[|visits| - 1];
  }

  /** An entry in the rule's table is the subject's own: what holds of a subject alone holds of
      its entry in every run. */
  lemma TableIsSolo<E(!new), I(!new)>(m: Machine<E, I>, visits: seq<Visit<I>>, s: EntityRef)
    requires Monotone(visits) && s in Run(m, visits).0
    ensures Own(visits, s) != [] && Solo(m, Own(visits, s)).0 == Some(Run(m, visits).0[s])
  {
    var front, v := visits[..|visits| - 1], visits[|visits| - 1];
    ReadyForVisit(m, visits, s);
    TouchIsSolo(m, Run(m, front).0, v, s, Own(front, s));
  }

  lemma {:induction false} SoloPrefix<E(!new), I(!new)>(m: Machine<E, I>, own: seq<Visit<I>>, k: nat)
    requires k <= |own|
    ensures Solo(m, own[..k]).1 == Solo(m, own).1[..k]
    decreases |own|
  {
    if k == |own| {
      assert own[..k] == own;
    } else {
      var front := own[..|own| - 1];
      SoloPrefix(m, front, k);
      assert front[..k] == own[..k];
      assert Solo(m, own).1[..|front|] == Solo(m, front).1;
    }
  }

  /** A visit that finds the entry no longer fresh starts the subject over. */
  lemma {:induction false} StartsOver<E(!new), I(!new)>(m: Machine<E, I>, own: seq<Visit<I>>, i: nat)
    requires 1 <= i < |own| && !Fresh(m, Solo(m, own[..i]).0.value, own[i].at)
    ensures Solo(m, own).0 == Solo(m, own[i..]).0 && Solo(m, own).1[i..] == Solo(m, own[i..]).1
    decreases |own|
  {
    var n := |own| - 1;
    var front, rest := own[..n], own[i..];
    assert rest[|rest| - 1] == own[n] && rest[..|rest| - 1] == front[i..];
    if i == n {
      assert front[i..] == [];
    } else {
      assert front[..i] == own[..i];
      StartsOver(m, front, i);
    }
  }

  // ---- Pruning is invisible ----------------------------------------------------------------------

  function Unpruned<E(!new), I(!new)>(m: Machine<E, I>): Machine<E, I> {
    m.(idleTtl := None, activeTtl := None)
  }

  predicate Within(gap: Duration, ttl: Option<Duration>) {
    ttl.None? || gap < ttl.value
  }

  /** Consecutive visits of the subject are closer together than the retention. */
  predicate NoGaps<I>(own: seq<Visit<I>>, ttl: Option<Duration>) {
    forall i :: 1 <= i < |own| ==> Within(DurationSince(own[i].at, own[i - 1].at), ttl)
  }

  predicate IdleGoesFirst<E(!new), I(!new)>(m: Machine<E, I>) {
    m.activeTtl.None? || (m.idleTtl.Some? && m.idleTtl.value <= m.activeTtl.value)
  }

  /** Visit `i` finds the subject's entry in time, or the entry held nothing: it was as good as
      new when it was dropped. */
  predicate Harmless<E(!new)(==), I(!new)>(m: Machine<E, I>, own: seq<Visit<I>>, i: nat)
    requires 1 <= i < |own|
  {
    var entry := Solo(m, own[..i]).0.value;
    Fresh(m, entry, own[i].at) || entry.core == m.initial
  }

  predicate AllHarmless<E(!new)(==), I(!new)>(m: Machine<E, I>, own: seq<Visit<I>>) {
    forall i :: 1 <= i < |own| ==> Harmless(m, own, i)
  }

  /** Gaps shorter than the shorter retention do no harm. */
  lemma SmallGapsAreHarmless<E(!new), I(!new)>(m: Machine<E, I>, own: seq<Visit<I>>)
    requires IdleGoesFirst(m) && NoGaps(own, m.idleTtl)
    ensures AllHarmless(m, own)
  {
    forall i | 1 <= i < |own| ensures Harmless(m, own, i) {
      assert Within(DurationSince(own[i].at, own[i - 1].at), m.idleTtl);
      assert own[..i][i - 1] == own[i - 1];
    }
  }

  lemma HarmlessFront<E(!new), I(!new)>(m: Machine<E, I>, own: seq<Visit<I>>, v: Visit<I>)
    requires AllHarmless(m, own + [v])
    ensures AllHarmless(m, own)
  {
    var own' := own + [v];
    forall i | 1 <= i < |own| ensures Harmless(m, own, i) {
      assert Harmless(m, own', i) && own'[..i] == own[..i];
    }
  }

  lemma {:induction false} SoloUnpruned<E(!new), I(!new)>(m: Machine<E, I>, own: seq<Visit<I>>)
    requires AllHarmless(m, own)
    ensures Solo(m, own) == Solo(Unpruned(m), own)
    decreases |own|
  {
    if own != [] {
      var n := |own| - 1;
      assert own == own[..n] + [own[n]];
      HarmlessFront(m, own[..n], own[n]);
      SoloUnpruned(m, own[..n]);
      assert n > 0 ==> Harmless(m, own, n);
    }
  }

  /** If entries are only ever dropped from subjects visited again in time or holding nothing,
      the rule emits exactly the drafts of the same rule without pruning. */
  lemma {:induction false} PruningIsInvisible<E(!new), I(!new)>(m: Machine<E, I>, visits: seq<Visit<I>>)
    requires Monotone(visits) && forall s :: AllHarmless(m, Own(visits, s))
    ensures Run(m, visits).1 == Run(Unpruned(m), visits).1
    decreases |visits|
  {
    if visits != [] {
      var n := |visits| - 1;
      var front, v := visits[..n], visits[n];
      forall s ensures AllHarmless(m, Own(front, s)) {
        assert AllHarmless(m, Own(visits, s));
        if s == v.subject { HarmlessFront(m, Own(front, s), v); }
      }
      PruningIsInvisible(m, front);
      LastOutput(m, visits);
      LastOutput(Unpruned(m), visits);
      assert AllHarmless(m, Own(visits, v.subject));
      SoloUnpruned(m, Own(visits, v.subject));
      assert Run(m, visits).1 == Run(m, front).1 + [Run(m, visits).1[n]];
      assert Run(Unpruned(m), visits).1 == Run(Unpruned(m), front).1 + [Run(Unpruned(m), visits).1[n]];
    }
  }

  /** Pruning bounds the table: after a visit, every entry without an outstanding Active was
      touched within the idle retention before it, whatever the clock did. */
  lemma {:induction false} IdleEntriesAreRecent<E(!new), I(!new)>(m: Machine<E, I>, visits: seq<Visit<I>>, s: EntityRef)
    requires visits != [] && m.idleTtl.Some? && m.idleTtl.value > 0
    requires s in Run(m, visits).0 && !m.active(Run(m, visits).0[s].core)
    ensures Run(m, visits).0[s].lastTouchedAt.Some?
    ensures DurationSince(visits[|visits| - 1].at, Run(m, visits).0[s].lastTouchedAt.value) < m.idleTtl.value
  {
    var front, v := visits[..|visits| - 1], visits[|visits| - 1];
    EntriesWereTouched(m, front);
    if s != v.subject {
      assert Fresh(m, Run(m, front).0[s], v.at);
    }
  }

  lemma {:induction false} EntriesWereTouched<E(!new), I(!new)>(m: Machine<E, I>, visits: seq<Visit<I>>)
    ensures forall s :: s in Run(m, visits).0 ==> Run(m, visits).0[s].lastTouchedAt.Some?
    decreases |visits|
  {
    if visits != [] {
      EntriesWereTouched(m, visits[..|visits| - 1]);
    }
  }

  // ---- Drafts alternate ----------------------------------------------------------------------------

  /** The machine emits Active exactly when it raises its flag and Cleared exactly when it
      lowers it. */
  ghost predicate Toggles<E(!new), I(!new)>(m: Machine<E, I>) {
    !m.active(m.initial) && forall e, i, t :: TogglesAt(m, e, i, t)
  }

  predicate TogglesAt<E(!new), I(!new)>(m: Machine<E, I>, e: E, i: I, t: Instant) {
    var (e', out) := m.react(e, i, t);
    (out == Some(Active) <==> !m.active(e) && m.active(e'))
    && (out == Some(Cleared) <==> m.active(e) && !m.active(e'))
  }

  function Emitted(outs: seq<Option<SignalStatus>>): seq<SignalStatus> {
    if outs == [] then []
    else
      Emitted(outs[..|outs| - 1])
      + match outs[|outs| - 1] { case None => [] case Some(s) => [s] }
  }

  predicate Alternates(w: seq<SignalStatus>) {
    forall i :: 0 <= i < |w| ==> w[i] == if i % 2 == 0 then Active else Cleared
  }

  /** Every Cleared answers an Active that was still outstanding. */
  predicate ClearedIsMatched(w: seq<SignalStatus>) {
    forall i :: 0 <= i < |w| && w[i] == Cleared ==> i > 0 && w[i - 1] == Active
  }

  predicate Flag<E(!new), I(!new)>(m: Machine<E, I>, entry: Option<Tracked<E>>) {
    entry.Some? && m.active(entry.value.core)
  }

  lemma EmittedAppend(outs: seq<Option<SignalStatus>>, out: Option<SignalStatus>)
    ensures Emitted(outs + [out]) == Emitted(outs) + match out { case None => [] case Some(s) => [s] }
  {
    assert (outs + [out])[..|outs|] == outs;
  }

  /** Visit `i` comes so late that an active entry has been dropped, and the last draft before
      it is an Active: one that was never answered. */
  predicate Forgotten<I>(own: seq<Visit<I>>, outs: seq<Option<SignalStatus>>, ttl: Option<Duration>, i: nat)
    requires i < |own| == |outs|
  {
    i >= 1 && !Within(DurationSince(own[i].at, own[i - 1].at), ttl) && EndsActive(Emitted(outs[..i]))
  }

  predicate EndsActive(w: seq<SignalStatus>) {
    w != [] && w[|w| - 1] == Active
  }

  predicate SilentFrom(outs: seq<Option<SignalStatus>>, i: nat) {
    forall j :: i <= j < |outs| ==> outs[j].None?
  }

  ghost predicate EverForgotten<I(!new)>(own: seq<Visit<I>>, outs: seq<Option<SignalStatus>>, ttl: Option<Duration>)
    requires |own| == |outs|
  {
    exists i :: 0 <= i < |own| && Forgotten(own, outs, ttl, i)
  }

  /** Once an Active has been forgotten the rule says nothing more about the subject. */
  ghost predicate SilentOnceForgotten<I(!new)>(own: seq<Visit<I>>, outs: seq<Option<SignalStatus>>, ttl: Option<Duration>)
    requires |own| == |outs|
  {
    forall i :: 0 <= i < |own| && Forgotten(own, outs, ttl, i) ==> SilentFrom(outs, i)
  }

  /** Where a subject stands: nothing forgotten and the flag tells the parity of its drafts; an
      Active forgotten and only silence since; or a draft after that, and the alternation is lost. */
  ghost predicate Standing<I(!new)>(own: seq<Visit<I>>, outs: seq<Option<SignalStatus>>, ttl: Option<Duration>, flag: bool)
    requires |own| == |outs|
  {
    var w := Emitted(outs);
    (Alternates(w) <==> SilentOnceForgotten(own, outs, ttl))
    && (Alternates(w) ==> if EverForgotten(own, outs, ttl) then !flag && |w| % 2 == 1 else (flag <==> |w| % 2 == 1))
  }

  lemma ForgottenEarlier<I(!new)>(own: seq<Visit<I>>, outs: seq<Option<SignalStatus>>, ttl: Option<Duration>,
                                  v: Visit<I>, out: Option<SignalStatus>, i: nat)
    requires i < |own| == |outs|
    ensures Forgotten(own + [v], outs + [out], ttl, i) <==> Forgotten(own, outs, ttl, i)
  {
    assert (outs + [out])[..i] == outs[..i];
  }

  lemma SilentAppend(outs: seq<Option<SignalStatus>>, out: Option<SignalStatus>, i: nat)
    requires i <= |outs|
    ensures SilentFrom(outs + [out], i) <==> SilentFrom(outs, i) && out.None?
  {
    var outs' := outs + [out];
    assert outs'[|outs|] == out;
    if SilentFrom(outs', i) {
      forall j | i <= j < |outs| ensures outs[j].None? { assert outs'[j] == outs[j]; }
    }
  }

  lemma EverForgottenAppend<I(!new)>(own: seq<Visit<I>>, outs: seq<Option<SignalStatus>>, ttl: Option<Duration>,
                                     v: Visit<I>, out: Option<SignalStatus>)
    requires |own| == |outs|
    ensures EverForgotten(own + [v], outs + [out], ttl)
            <==> EverForgotten(own, outs, ttl) || Forgotten(own + [v], outs + [out], ttl, |own|)
  {
    forall i | 0 <= i < |own| ensures Forgotten(own + [v], outs + [out], ttl, i) <==> Forgotten(own, outs, ttl, i) {
      ForgottenEarlier(own, outs, ttl, v, out, i);
    }
    if i: nat :| i < |own| && Forgotten(own, outs, ttl, i) {
      assert Forgotten(own + [v], outs + [out], ttl, i);
    }
  }

  lemma SilenceAppend<I(!new)>(own: seq<Visit<I>>, outs: seq<Option<SignalStatus>>, ttl: Option<Duration>,
                               v: Visit<I>, out: Option<SignalStatus>)
    requires |own| == |outs|
    ensures SilentOnceForgotten(own + [v], outs + [out], ttl)
            <==> SilentOnceForgotten(own, outs, ttl) && (EverForgotten(own + [v], outs + [out], ttl) ==> out.None?)
  {
    var own', outs' := own + [v], outs + [out];
    forall i | 0 <= i <= |own|
      ensures SilentFrom(outs', i) <==> SilentFrom(outs, i) && out.None?
      ensures i < |own| ==> (Forgotten(own', outs', ttl, i) <==> Forgotten(own, outs, ttl, i))
    {
      SilentAppend(outs, out, i);
      if i < |own| { ForgottenEarlier(own, outs, ttl, v, out, i); }
    }
    if SilentOnceForgotten(own', outs', ttl) {
      forall i | 0 <= i < |own| && Forgotten(own, outs, ttl, i) ensures SilentFrom(outs, i) {
        assert Forgotten(own', outs', ttl, i);
      }
      if i: nat :| i < |own'| && Forgotten(own', outs', ttl, i) {
        assert SilentFrom(outs', i);
      }
    }
  }

  lemma ForgottenNow<I(!new)>(own: seq<Visit<I>>, outs: seq<Option<SignalStatus>>, ttl: Option<Duration>,
                              v: Visit<I>, out: Option<SignalStatus>)
    requires |own| == |outs|
    ensures Forgotten(own + [v], outs + [out], ttl, |own|)
            <==> own != [] && !Within(DurationSince(v.at, own[|own| - 1].at), ttl) && EndsActive(Emitted(outs))
  {
    assert (outs + [out])[..|own|] == outs;
  }

  /** An alternating sequence stays one exactly when the next draft is due. */
  lemma AlternatesAppend(w: seq<SignalStatus>, out: Option<SignalStatus>)
    ensures var w' := w + match out { case None => [] case Some(s) => [s] };
            (Alternates(w') <==> Alternates(w) && (out.None? || out.value == if |w| % 2 == 0 then Active else Cleared))
            && (Alternates(w) ==> (EndsActive(w) <==> |w| % 2 == 1))
  {
    match out
    case None => assert w + [] == w;
    case Some(s) =>
      var w' := w + [s];
      if Alternates(w') {
        assert w'[|w|] == s;
        forall i | 0 <= i < |w| ensures w[i] == if i % 2 == 0 then Active else Cleared { assert w'[i] == w[i]; }
      }
  }

  /** One more visit: `before` is the flag it resumes with, `after` the flag it leaves. */
  lemma StandingAppend<I(!new)>(own: seq<Visit<I>>, outs: seq<Option<SignalStatus>>, ttl: Option<Duration>, flag: bool,
                                v: Visit<I>, out: Option<SignalStatus>, before: bool, after: bool)
    requires |own| == |outs| && Standing(own, outs, ttl, flag)
    requires before <==> flag && own != [] && Within(DurationSince(v.at, own[|own| - 1].at), ttl)
    requires own == [] ==> !flag
    requires (out == Some(Active) <==> !before && after) && (out == Some(Cleared) <==> before && !after)
    ensures Standing(own + [v], outs + [out], ttl, after)
  {
    EverForgottenAppend(own, outs, ttl, v, out);
    SilenceAppend(own, outs, ttl, v, out);
    ForgottenNow(own, outs, ttl, v, out);
    EmittedAppend(outs, out);
    AlternatesAppend(Emitted(outs), out);
  }

  /** The drafts of a subject alternate, starting with Active, if and only if the rule stays
      silent about it once it has forgotten an Active. */
  lemma {:induction false} SoloAlternatesExactly<E(!new), I(!new)>(m: Machine<E, I>, own: seq<Visit<I>>)
    requires Toggles(m)
    ensures Standing(own, Solo(m, own).1, m.activeTtl, Flag(m, Solo(m, own).0))
    decreases |own|
  {
    if own != [] {
      var n := |own| - 1;
      var front, v := own[..n], own[n];
      SoloAlternatesExactly(m, front);
      var (entry, outs) := Solo(m, front);
      var before := Resumed(m, entry, v.at);
      var (core, out) := m.react(before, v.input, v.at);
      assert TogglesAt(m, before, v.input, v.at);
      assert own == front + [v];
      StandingAppend(front, outs, m.activeTtl, Flag(m, entry), v, out, m.active(before), m.active(core));
    }
  }

  /** Visit `i` comes after an entry with an outstanding Active was due to be dropped. */
  predicate DroppedActive<E(!new), I(!new)>(m: Machine<E, I>, own: seq<Visit<I>>, i: nat)
    requires 1 <= i < |own|
  {
    Flag(m, Solo(m, own[..i]).0) && !Within(DurationSince(own[i].at, own[i - 1].at), m.activeTtl)
  }

  /** A rule that begins to watch the subject at a visit that finds its Active dropped would not
      draft anything. */
  ghost predicate NothingAfterDrops<E(!new), I(!new)>(m: Machine<E, I>, own: seq<Visit<I>>) {
    forall i :: 1 <= i < |own| && DroppedActive(m, own, i) ==> Emitted(Solo(m, own[i..]).1) == []
  }

  lemma {:induction false} SilentIsEmpty(outs: seq<Option<SignalStatus>>)
    ensures Emitted(outs) == [] <==> SilentFrom(outs, 0)
    decreases |outs|
  {
    if outs != [] {
      var front := outs[..|outs| - 1];
      SilentIsEmpty(front);
      assert forall j :: 0 <= j < |front| ==> front[j] == outs[j];
    }
  }

  lemma SilentTail(outs: seq<Option<SignalStatus>>, i: nat)
    requires i <= |outs|
    ensures SilentFrom(outs, i) <==> Emitted(outs[i..]) == []
  {
    var tail := outs[i..];
    SilentIsEmpty(tail);
    if SilentFrom(tail, 0) {
      forall j | i <= j < |outs| ensures outs[j].None? { assert tail[j - i] == outs[j]; }
    }
  }

  lemma DroppedIsStale<E(!new), I(!new)>(m: Machine<E, I>, own: seq<Visit<I>>, i: nat)
    requires 1 <= i < |own| && DroppedActive(m, own, i)
    ensures !Fresh(m, Solo(m, own[..i]).0.value, own[i].at)
  {
    assert own[..i][i - 1] == own[i - 1];
  }

  lemma SilentAfterDrop<E(!new), I(!new)>(m: Machine<E, I>, own: seq<Visit<I>>, i: nat)
    requires 1 <= i < |own| && DroppedActive(m, own, i)
    ensures SilentFrom(Solo(m, own).1, i) <==> Emitted(Solo(m, own[i..]).1) == []
  {
    DroppedIsStale(m, own, i);
    StartsOver(m, own, i);
    SilentTail(Solo(m, own).1, i);
  }

  /** A dropped Active is a forgotten one. */
  lemma DroppedIsForgotten<E(!new), I(!new)>(m: Machine<E, I>, own: seq<Visit<I>>, i: nat)
    requires Toggles(m) && 1 <= i < |own| && DroppedActive(m, own, i)
    ensures Forgotten(own, Solo(m, own).1, m.activeTtl, i)
  {
    SoloPrefix(m, own, i);
    SoloClearedIsMatched(m, own[..i]);
  }

  /** The first forgotten Active was dropped at that visit. */
  lemma FirstForgottenIsDropped<E(!new), I(!new)>(m: Machine<E, I>, own: seq<Visit<I>>, i: nat)
    requires Toggles(m) && i < |own| && Forgotten(own, Solo(m, own).1, m.activeTtl, i)
    requires forall j :: 0 <= j < i ==> !Forgotten(own, Solo(m, own).1, m.activeTtl, j)
    ensures i >= 1 && DroppedActive(m, own, i)
  {
    var outs, front := Solo(m, own).1, own[..i];
    SoloPrefix(m, own, i);
    forall j | 0 <= j < i ensures !Forgotten(front, outs[..i], m.activeTtl, j) {
      assert outs[..i][..j] == outs[..j] && !Forgotten(own, outs, m.activeTtl, j);
    }
    SoloAlternatesExactly(m, front);
    AlternatesAppend(Emitted(outs[..i]), None);
  }

  lemma FirstForgotten<I(!new)>(own: seq<Visit<I>>, outs: seq<Option<SignalStatus>>, ttl: Option<Duration>, i: nat) returns (k: nat)
    requires i < |own| == |outs| && Forgotten(own, outs, ttl, i)
    ensures k <= i && Forgotten(own, outs, ttl, k) && forall j :: 0 <= j < k ==> !Forgotten(own, outs, ttl, j)
  {
    k := i;
    if j: nat :| j < i && Forgotten(own, outs, ttl, j) {
      k := FirstForgotten(own, outs, ttl, j);
    }
  }

  lemma SilenceByGuard<E(!new), I(!new)>(m: Machine<E, I>, own: seq<Visit<I>>)
    requires Toggles(m)
    ensures SilentOnceForgotten(own, Solo(m, own).1, m.activeTtl) <==> NothingAfterDrops(m, own)
  {
    var outs := Solo(m, own).1;
    forall i | 1 <= i < |own| && DroppedActive(m, own, i)
      ensures SilentOnceForgotten(own, outs, m.activeTtl) ==> Emitted(Solo(m, own[i..]).1) == []
    {
      DroppedIsForgotten(m, own, i);
      SilentAfterDrop(m, own, i);
    }
    forall i | 0 <= i < |own| && Forgotten(own, outs, m.activeTtl, i)
      ensures NothingAfterDrops(m, own) ==> SilentFrom(outs, i)
    {
      var k := FirstForgotten(own, outs, m.activeTtl, i);
      FirstForgottenIsDropped(m, own, k);
      SilentAfterDrop(m, own, k);
    }
  }

  /** The drafts of a subject alternate, starting with Active, if and only if no draft about it
      follows a gap as long as the retention of active entries with an Active unanswered; that is,
      if and only if, from each visit that finds its Active dropped, a new rule would stay silent. */
  lemma DraftsAlternateExactly<E(!new), I(!new)>(m: Machine<E, I>, visits: seq<Visit<I>>, s: EntityRef)
    requires Toggles(m) && Monotone(visits)
    ensures var own, outs := Own(visits, s), OwnOutputs(visits, Run(m, visits).1, s);
            |own| == |outs|
            && (Alternates(Emitted(outs)) <==> SilentOnceForgotten(own, outs, m.activeTtl))
            && (Alternates(Emitted(outs)) <==> NothingAfterDrops(m, own))
  {
    SubjectsAreIndependent(m, visits, s);
    SoloAlternatesExactly(m, Own(visits, s));
    SilenceByGuard(m, Own(visits, s));
  }

  /** In particular they do when there is no such gap at all, and always when active entries are
      never dropped. */
  lemma DraftsAlternate<E(!new), I(!new)>(m: Machine<E, I>, visits: seq<Visit<I>>, s: EntityRef)
    requires Toggles(m) && Monotone(visits) && NoGaps(Own(visits, s), m.activeTtl)
    ensures Alternates(Emitted(OwnOutputs(visits, Run(m, visits).1, s)))
  {
    DraftsAlternateExactly(m, visits, s);
  }

  lemma {:induction false} SoloClearedIsMatched<E(!new), I(!new)>(m: Machine<E, I>, own: seq<Visit<I>>)
    requires Toggles(m)
    ensures var w := Emitted(Solo(m, own).1);
            ClearedIsMatched(w) && (Flag(m, Solo(m, own).0) ==> w != [] && w[|w| - 1] == Active)
    decreases |own|
  {
    if own != [] {
      var n := |own| - 1;
      SoloClearedIsMatched(m, own[..n]);
      var (entry, outs) := Solo(m, own[..n]);
      var v := own[n];
      var before := Resumed(m, entry, v.at);
      var out := m.react(before, v.input, v.at).1;
      assert TogglesAt(m, before, v.input, v.at);
      EmittedAppend(outs, out);
    }
  }

  /** In every run, with any gaps, a Cleared is directly preceded by its Active. */
  lemma ClearedAnswersActive<E(!new), I(!new)>(m: Machine<E, I>, visits: seq<Visit<I>>, s: EntityRef)
    requires Toggles(m) && Monotone(visits)
    ensures ClearedIsMatched(Emitted(OwnOutputs(visits, Run(m, visits).1, s)))
  {
    SubjectsAreIndependent(m, visits, s);
    SoloClearedIsMatched(m, Own(visits, s));
  }

  // ---- The flag -----------------------------------------------------------------------------------

  predicate ActiveIn<E(!new), I(!new)>(m: Machine<E, I>, table: Table<E>, s: EntityRef) {
    s in table && m.active(table[s].core)
  }

  /** One visit moves only its own subject's flag, and exactly as the output says, when active
      entries are never pruned. */
  lemma TouchMovesOwnFlag<E(!new), I(!new)>(m: Machine<E, I>, table: Table<E>, subject: EntityRef, input: I, now: Instant, s: EntityRef)
    requires Toggles(m) && m.activeTtl.None?
    ensures var (table', out) := Touch(m, table, subject, input, now);
            (s != subject ==> (ActiveIn(m, table', s) <==> ActiveIn(m, table, s)))
            && (out == Some(Active) <==> !ActiveIn(m, table, subject) && ActiveIn(m, table', subject))
            && (out == Some(Cleared) <==> ActiveIn(m, table, subject) && !ActiveIn(m, table', subject))
  {
    var kept := Prune(m, table, now);
    assert TogglesAt(m, if subject in kept then kept[subject].core else m.initial, input, now);
  }
}
