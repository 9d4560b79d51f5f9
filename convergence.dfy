/**
 * The scroll probe (`scroll_page`) and the collection loop of `scrape` as a
 * state machine over the scroll count, the no-new-content count and the store.
 *
 * The browser is an oracle given in advance: the elements each
 * `collect_articles` pass observes, in call order, and the page heights each
 * `scroll_page` call reads. The script is finite; once it runs out, every wait
 * for articles times out (an empty observation) and the page height never
 * grows, which is what lets the loop be shown to end.
 */
module Convergence {
  import opened Wrappers
  import opened ArticleStore

  // ---------------------------------------------------------------------------
  // The scroll probe
  // ---------------------------------------------------------------------------

  /**
   * The heights one `scroll_page` call reads: before scrolling, and after the
   * normal, the larger and the smaller scroll.
   */
  datatype Probe = Probe(initial: int, afterNormal: int, afterLarger: int, afterSmaller: int) {
    function After(): seq<int> {
      [afterNormal, afterLarger, afterSmaller]
    }
  }

  /**
   * The scroll amounts, in the order they are tried. Python's `inc // 2`
   * floors; Dafny's `/` by a positive divisor floors too.
   */
  function ScrollAmounts(inc: int): seq<int> {
    [inc, inc * 2, inc / 2]
  }

  /** Some scroll made the page taller than it was before the first one. */
  predicate ProbeGrew(p: Probe) {
    exists i | 0 <= i < 3 :: p.After()[i] > p.initial
  }

  /** A page that never grows: what the browser shows once the script is used up. */
  const StillPage: Probe := Probe(0, 0, 0, 0)

  // ---------------------------------------------------------------------------
  // The browser oracle
  // ---------------------------------------------------------------------------

  datatype Browser = Browser(passes: seq<seq<Element>>, probes: seq<Probe>)

  /** What the `n`-th `collect_articles` call observes. */
  function PassAt(b: Browser, n: nat): seq<Element> {
    if n < |b.passes| then b.passes[n] else []
  }

  /** What the `n`-th `scroll_page` call reads. */
  function ProbeAt(b: Browser, n: nat): Probe {
    if n < |b.probes| then b.probes[n] else StillPage
  }

  // ---------------------------------------------------------------------------
  // The collection loop
  // ---------------------------------------------------------------------------

  /** `scrape(max_scrolls, new_content_retries)`; `None` stands for the default `None`. */
  datatype Config = Config(maxScrolls: Option<int>, newContentRetries: int)

  /** `max_scrolls` is tested for truthiness: `None` and `0` mean no bound. */
  predicate Bounded(cfg: Config) {
    cfg.maxScrolls.Some? && cfg.maxScrolls.value != 0
  }

  /** Why the loop ended (the message it logs). */
  datatype Exit = MaxScrollsReached | NoNewContent | PageEnd

  /**
   * The loop's variables: the store, `scroll_count`, `no_new_content_count`,
   * and how many collect passes and scroll probes have been used.
   */
  datatype LoopState = LoopState(store: Store, scrollCount: nat, noNewContent: nat,
                                 passes: nat, probes: nat)

  function Start(s: Store): LoopState {
    LoopState(s, 0, 0, 0, 0)
  }

  /** After one iteration: carry on from a state, or stop with a reason. */
  datatype Step = Next(state: LoopState) | Done(state: LoopState, exit: Exit)

  /** What is left of the browser script. */
  function Remaining(b: Browser, st: LoopState): nat {
    (if st.passes < |b.passes| then |b.passes| - st.passes else 0)
    + (if st.probes < |b.probes| then |b.probes| - st.probes else 0)
  }

  /** One pass of the body of `while True`. */
  function Iterate(cfg: Config, b: Browser, st: LoopState): (r: Step)
    ensures r.Next? ==> Remaining(b, r.state) < Remaining(b, st)
  {
    if Bounded(cfg) && st.scrollCount >= cfg.maxScrolls.value then
      Done(st, MaxScrollsReached)
    else
      var prev := st.store.Size();
      var s1 := CollectPass(st.store, PassAt(b, st.passes));
      var count := if s1.Size() == prev then st.noNewContent + 1 else 0;
      if s1.Size() == prev && count >= cfg.newContentRetries then
        Done(LoopState(s1, st.scrollCount, count, st.passes + 1, st.probes), NoNewContent)
      else if ProbeGrew(ProbeAt(b, st.probes)) then
        Next(LoopState(s1, st.scrollCount + 1, count, st.passes + 1, st.probes + 1))
      else
        var s2 := CollectPass(s1, PassAt(b, st.passes + 1));
        if s2.Size() == prev then
          Done(LoopState(s2, st.scrollCount, count, st.passes + 2, st.probes + 1), PageEnd)
        else
          Next(LoopState(s2, st.scrollCount + 1, count, st.passes + 2, st.probes + 1))
  }

  /** The loop run to its end from `st`: the final state and the exit taken. */
  function Run(cfg: Config, b: Browser, st: LoopState): (LoopState, Exit)
    decreases Remaining(b, st)
  {
    match Iterate(cfg, b, st)
    case Done(final, exit) => (final, exit)
    case Next(next) => Run(cfg, b, next)
  }

  // ---------------------------------------------------------------------------
  // One iteration
  // ---------------------------------------------------------------------------

  /** The store of the state after an iteration extends the one before it. */
  lemma IterateGrows(cfg: Config, b: Browser, st: LoopState)
    requires st.store.Valid()
    ensures Iterate(cfg, b, st).state.store.Valid()
    ensures Extends(st.store, Iterate(cfg, b, st).state.store)
  {
    ExtendsRefl(st.store);
    var s1 := CollectPass(st.store, PassAt(b, st.passes));
    CollectPassGrows(st.store, PassAt(b, st.passes));
    CollectPassGrows(s1, PassAt(b, st.passes + 1));
    ExtendsTrans(st.store, s1, CollectPass(s1, PassAt(b, st.passes + 1)));
  }

  /**
   * The exits of one iteration:
   * the max-scroll exit exactly when the bound is set and reached, before any
   * collect; the stagnation exit exactly when the first collect adds nothing
   * and the counter then reaches `new_content_retries`, before any scroll;
   * the page-end exit exactly when neither of those holds, the probe fails and
   * the final re-collect leaves the size at `prev_count`.
   */
  lemma IterateExits(cfg: Config, b: Browser, st: LoopState)
    requires st.store.Valid()
    ensures var prev := st.store.Size();
            var s1 := CollectPass(st.store, PassAt(b, st.passes));
            var s2 := CollectPass(s1, PassAt(b, st.passes + 1));
            var r := Iterate(cfg, b, st);
            var maxExit := Bounded(cfg) && st.scrollCount >= cfg.maxScrolls.value;
            var stagnant := !maxExit && s1.Size() == prev && st.noNewContent + 1 >= cfg.newContentRetries;
            && (r == Done(st, MaxScrollsReached) <==> maxExit)
            && (r.Done? && r.exit == NoNewContent <==> stagnant)
            && (stagnant ==> r.state == LoopState(s1, st.scrollCount, st.noNewContent + 1, st.passes + 1, st.probes))
            && (r.Done? && r.exit == PageEnd <==>
                  !maxExit && !stagnant && !ProbeGrew(ProbeAt(b, st.probes)) && s2.Size() == prev)
  {
    var s1 := CollectPass(st.store, PassAt(b, st.passes));
    CollectPassGrows(st.store, PassAt(b, st.passes));
    CollectPassGrows(s1, PassAt(b, st.passes + 1));
  }

  /**
   * An iteration that does not stop: `scroll_count` rises by exactly one, one
   * probe is used, and the no-new-content counter is reset to 0 when the
   * first collect grew the store and incremented otherwise, so it stays below
   * the limit unless it is 0.
   */
  lemma IterateContinues(cfg: Config, b: Browser, st: LoopState)
    requires st.store.Valid()
    requires Iterate(cfg, b, st).Next?
    ensures var n := Iterate(cfg, b, st).state;
            var grew := CollectPass(st.store, PassAt(b, st.passes)).Size() > st.store.Size();
            && n.scrollCount == st.scrollCount + 1
            && n.probes == st.probes + 1
            && n.noNewContent == (if grew then 0 else st.noNewContent + 1)
            && (n.noNewContent == 0 || n.noNewContent < cfg.newContentRetries)
            && (Bounded(cfg) ==> n.scrollCount <= cfg.maxScrolls.value)
  {
    CollectPassGrows(st.store, PassAt(b, st.passes));
  }

  // ---------------------------------------------------------------------------
  // The whole loop
  // ---------------------------------------------------------------------------

  /** Over the whole loop, the store only grows. */
  lemma {:induction false} RunGrows(cfg: Config, b: Browser, st: LoopState)
    requires st.store.Valid()
    ensures Run(cfg, b, st).0.store.Valid()
    ensures Extends(st.store, Run(cfg, b, st).0.store)
    decreases Remaining(b, st)
  {
    IterateGrows(cfg, b, st);
    match Iterate(cfg, b, st)
    case Done(_, _) =>
    case Next(next) =>
      RunGrows(cfg, b, next);
      ExtendsTrans(st.store, next.store, Run(cfg, b, next).0.store);
  }

  function Max0(n: int): nat {
    if n < 0 then 0 else n
  }

  /**
   * With a truthy `max_scrolls` the scroll count never exceeds it (or 0 when
   * it is negative), and the max-scroll exit leaves it exactly there.
   */
  lemma {:induction false} RunScrollBound(cfg: Config, b: Browser, st: LoopState)
    requires Bounded(cfg) && st.scrollCount <= Max0(cfg.maxScrolls.value)
    ensures Run(cfg, b, st).0.scrollCount <= Max0(cfg.maxScrolls.value)
    ensures Run(cfg, b, st).1 == MaxScrollsReached ==>
              Run(cfg, b, st).0.scrollCount == Max0(cfg.maxScrolls.value)
    decreases Remaining(b, st)
  {
    match Iterate(cfg, b, st)
    case Done(_, _) =>
    case Next(next) =>
      RunScrollBound(cfg, b, next);
  }

  /**
   * `scroll_count` counts the completed iterations: every iteration calls
   * `scroll_page` once unless it stopped before scrolling, and only the
   * page-end exit stops after scrolling without counting it.
   */
  lemma {:induction false} RunCountsScrolls(cfg: Config, b: Browser, st: LoopState)
    ensures var (final, exit) := Run(cfg, b, st);
            && final.scrollCount >= st.scrollCount
            && final.probes == st.probes + (final.scrollCount - st.scrollCount)
                               + (if exit == PageEnd then 1 else 0)
    decreases Remaining(b, st)
  {
    match Iterate(cfg, b, st)
    case Done(_, _) =>
    case Next(next) =>
      RunCountsScrolls(cfg, b, next);
  }

  /**
   * The stagnation exit is taken only once the counter has reached the limit,
   * and it counts consecutive iterations whose first collect added nothing.
   */
  lemma {:induction false} RunStagnation(cfg: Config, b: Browser, st: LoopState)
    requires st.store.Valid()
    requires st.noNewContent == 0 || st.noNewContent < cfg.newContentRetries
    ensures var (final, exit) := Run(cfg, b, st);
            && (exit == NoNewContent ==> final.noNewContent >= 1 && final.noNewContent >= cfg.newContentRetries)
            && (exit != NoNewContent ==> final.noNewContent == 0 || final.noNewContent < cfg.newContentRetries)
    decreases Remaining(b, st)
  {
    IterateExits(cfg, b, st);
    match Iterate(cfg, b, st)
    case Done(_, _) =>
    case Next(next) =>
      IterateContinues(cfg, b, st);
      IterateGrows(cfg, b, st);
      RunStagnation(cfg, b, next);
  }

  /** Once the browser script is used up, the loop stops within one iteration. */
  lemma ExhaustedStops(cfg: Config, b: Browser, st: LoopState)
    requires st.store.Valid()
    requires st.passes >= |b.passes| && st.probes >= |b.probes|
    ensures Iterate(cfg, b, st).Done?
    ensures Iterate(cfg, b, st).state.store == st.store
  {
    assert PassAt(b, st.passes) == [] && PassAt(b, st.passes + 1) == [];
    assert !ProbeGrew(StillPage) by {
      assert StillPage.After() == [0, 0, 0];
    }
  }
}
