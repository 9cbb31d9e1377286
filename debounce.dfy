/** The 300 ms trailing-edge debounce in front of the geocoder search, on a
    virtual clock: a call records its value and restarts the timer; when the
    timer runs out the last recorded value is released, once. */
module Debounce {
  import opened Wrappers

  const Wait: int := 300

  datatype Debouncer = Debouncer(pending: Option<string>, deadline: int)

  const Idle: Debouncer := Debouncer(None, 0)

  /** `debouncedSearch(value)` at time `now`. */
  function Call(d: Debouncer, value: string, now: int): Debouncer {
    Debouncer(Some(value), now + Wait)
  }

  /** The clock reads `now`: the pending value is released once its deadline has come. */
  function Poll(d: Debouncer, now: int): (Debouncer, Option<string>) {
    if d.pending.Some? && now >= d.deadline then (Debouncer(None, d.deadline), d.pending) else (d, None)
  }

  datatype Event = Input(value: string, time: int) | Tick(time: int)

  function Step(d: Debouncer, e: Event): (Debouncer, Option<string>) {
    match e
    case Input(v, t) => (Call(d, v, t), None)
    case Tick(t) => Poll(d, t)
  }

  /** The state after a trace and the values released along it, in order. */
  function Run(d: Debouncer, es: seq<Event>): (Debouncer, seq<string>) {
    if es == [] then (d, [])
    else
      var prev := Run(d, es[..|es| - 1]);
      var next := Step(prev.0, es[|es| - 1]);
      (next.0, prev.1 + if next.1.Some? then [next.1.value] else [])
  }

  /** Typing in a burst: every keystroke is followed by a clock reading that
      comes before that keystroke's deadline. */
  ghost predicate Burst(es: seq<Event>) {
    |es| >= 2 && |es| % 2 == 0 && es[|es| - 2].Input? &&
    forall i :: 0 <= i < |es| / 2 ==>
      es[2 * i].Input? && es[2 * i + 1].Tick? &&
      es[2 * i].time <= es[2 * i + 1].time < es[2 * i].time + Wait
  }

  /** Nothing is released during a burst, and the last keystroke is pending. */
  lemma {:induction false} BurstHolds(d: Debouncer, es: seq<Event>)
    requires Burst(es)
    ensures Run(d, es) == (Debouncer(Some(es[|es| - 2].value), es[|es| - 2].time + Wait), [])
  {
    var n := |es|;
    var k := n / 2 - 1;
    assert 2 * k == n - 2 && 2 * k + 1 == n - 1;
    var input, tick := es[n - 2], es[n - 1];
    assert tick.Tick? && input.time <= tick.time < input.time + Wait;
    var init := es[..n - 2];
    var before := Run(d, init);
    if n > 2 {
      assert Burst(init) by {
        assert 2 * (k - 1) == |init| - 2;
        assert init[|init| - 2] == es[2 * (k - 1)];
        forall i | 0 <= i < |init| / 2
          ensures init[2 * i].Input? && init[2 * i + 1].Tick? &&
                  init[2 * i].time <= init[2 * i + 1].time < init[2 * i].time + Wait
        {
          assert init[2 * i] == es[2 * i] && init[2 * i + 1] == es[2 * i + 1];
        }
      }
      BurstHolds(d, init);
    } else {
      assert init == [];
    }
    assert before.1 == [];
    var pre := es[..n - 1];
    assert pre != [] && pre[..|pre| - 1] == init && pre[|pre| - 1] == input;
    var typed := Call(before.0, input.value, input.time);
    assert input.Input?;
    assert Step(before.0, input) == (typed, None);
    assert Run(d, pre) == (typed, before.1 + []);
    var none: seq<string> := [];
    assert before.1 + [] == none;
    assert Run(d, pre) == (typed, none);
    assert Poll(typed, tick.time) == (typed, None);
  }

  /** Only the last keystroke of a burst reaches the search, once its
      deadline has passed. */
  lemma LastKeystrokeWins(d: Debouncer, es: seq<Event>, now: int)
    requires Burst(es)
    requires now >= es[|es| - 2].time + Wait
    ensures Run(d, es + [Tick(now)]).1 == [es[|es| - 2].value]
  {
    BurstHolds(d, es);
    assert (es + [Tick(now)])[..|es|] == es;
  }

  /** A released value is released only once. */
  lemma ReleasedOnce(d: Debouncer, now: int, later: int)
    requires Poll(d, now).1.Some?
    ensures Poll(Poll(d, now).0, later).1.None?
  {
  }
}
