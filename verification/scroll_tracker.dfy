/**
 * The scroll tracker: the page offset last seen and whether the page last
 * moved down or up.  Each scroll event samples the offset; the browser and
 * the listener registration are abstracted to the sequence of samples.
 */
module ScrollTracker {

  datatype Direction = Up | Down

  /** `scrollY` and `direction` are the values the hook exposes;
      `lastScrollY` is the sample the next event compares against. */
  datatype Tracker = Tracker(scrollY: real, lastScrollY: real, direction: Direction)

  /** Before any event: offset 0 and direction down, while the comparison
      point is the page offset when the listener was installed. */
  function Init(offsetAtInstall: real): (t: Tracker)
    ensures t.scrollY == 0.0 && t.direction == Down
    ensures t.lastScrollY == offsetAtInstall
  {
    Tracker(0.0, offsetAtInstall, Down)
  }

  /** One scroll event with the page at `current`.  The direction is down
      only for a strict increase; no movement counts as up. */
  function HandleScroll(t: Tracker, current: real): (r: Tracker)
    ensures r.direction == Down <==> current > t.lastScrollY
    ensures r.direction == Up <==> current <= t.lastScrollY
    ensures r.scrollY == current && r.lastScrollY == current
  {
    Tracker(current, current, if current > t.lastScrollY then Down else Up)
  }

  /** The tracker after the samples, in order. */
  function Run(offsetAtInstall: real, samples: seq<real>): Tracker
    decreases |samples|
  {
    if |samples| == 0 then Init(offsetAtInstall)
    else HandleScroll(Run(offsetAtInstall, samples[..|samples| - 1]), samples[|samples| - 1])
  }

  /** The sample the latest one is compared with: the one before it, or the
      offset at install for the first. */
  function Previous(offsetAtInstall: real, samples: seq<real>): real
    requires |samples| > 0
  {
    if |samples| == 1 then offsetAtInstall else samples[|samples| - 2]
  }

  /** Two equal samples in a row report up. */
  lemma EqualSamplesReportUp(t: Tracker, y: real)
    ensures HandleScroll(HandleScroll(t, y), y).direction == Up
  {
  }

  /** The tracker's state depends only on the last two samples: the exposed
      offset is the latest sample, and the direction is down exactly when it
      exceeds the one before. */
  lemma {:induction false} RunDependsOnLastTwo(offsetAtInstall: real, samples: seq<real>)
    requires |samples| > 0
    ensures Run(offsetAtInstall, samples).scrollY == samples[|samples| - 1]
    ensures Run(offsetAtInstall, samples).lastScrollY == samples[|samples| - 1]
    ensures Run(offsetAtInstall, samples).direction == Down
        <==> samples[|samples| - 1] > Previous(offsetAtInstall, samples)
  {
    var init := samples[..|samples| - 1];
    if |samples| > 1 {
      assert init[|init| - 1] == samples[|samples| - 2];
      RunDependsOnLastTwo(offsetAtInstall, init);
    }
  }
}
