/**
 One discovery of slots (lib/svm/ingest-slot-discovery.ts): the followed programs are asked one after the
 other for their signatures, and the slots are put together. When the list so made has a gap, and when not.
 */
module IngestDiscovery {
  import opened Common
  import opened Ingest
  import opened IngestSlots

  /** Slots one program's list shows when it reaches `tip`, from the start slot on. */
  function SlotsOf(env: Env, program: nat, tip: int): (r: seq<int>)
    requires program < |env.programs|
    ensures Ascending(r) && forall x :: x in r <==> env.startSlot <= x <= tip && env.programs[program](x)
    decreases tip - env.startSlot
  {
    if tip < env.startSlot then []
    else
      var below := SlotsOf(env, program, tip - 1);
      assert forall k :: 0 <= k < |below| ==> below[k] in below;
      if env.programs[program](tip) then below + [tip] else below
  }

  function InsertSlot(slots: seq<int>, x: int): (r: seq<int>)
    ensures forall y :: y in r <==> y in slots || y == x
    ensures Ascending(slots) ==> Ascending(r)
  {
    if slots == [] || x < slots[0] then [x] + slots
    else if x == slots[0] then slots
    else
      InsertedAfter(slots, InsertSlot(slots[1..], x), x);
      [slots[0]] + InsertSlot(slots[1..], x)
  }

  lemma InsertedAfter(slots: seq<int>, r: seq<int>, x: int)
    requires slots != [] && slots[0] < x && forall y :: y in r <==> y in slots[1..] || y == x
    ensures forall y :: y in [slots[0]] + r <==> y in slots || y == x
    ensures Ascending(slots) ==> Ascending(slots[1..]) && (Ascending(r) ==> Ascending([slots[0]] + r))
  {
    assert slots == [slots[0]] + slots[1..];
    if Ascending(slots) && Ascending(r) {
      forall j | 0 <= j < |r| ensures slots[0] < r[j] { assert r[j] in r; }
    }
  }

  /** `new Set` and `sort`: ascending, each slot once. */
  function Merge(slots: seq<int>, more: seq<int>): (r: seq<int>)
    ensures forall y :: y in r <==> y in slots || y in more
    ensures Ascending(slots) ==> Ascending(r)
    decreases |more|
  {
    if more == [] then slots
    else
      assert more == [more[0]] + more[1..];
      Merge(InsertSlot(slots, more[0]), more[1..])
  }

  /** The first |tips| programs have been asked, each when its list reached its tip. */
  ghost predicate Shown(env: Env, tips: seq<int>, slot: int) {
    exists p :: 0 <= p < |tips| && p < |env.programs| && slot <= tips[p] && env.programs[p](slot)
  }

  function Listed(env: Env, tips: seq<int>): (r: seq<int>)
    requires |tips| <= |env.programs|
    ensures Ascending(r) && forall x :: x in r <==> env.startSlot <= x && Shown(env, tips, x)
  {
    if tips == [] then []
    else
      var n := |tips| - 1;
      assert forall x :: Shown(env, tips, x) <==> Shown(env, tips[..n], x) || (x <= tips[n] && env.programs[n](x));
      Merge(Listed(env, tips[..n]), SlotsOf(env, n, tips[n]))
  }

  /** Live follow keeps only the slots above its watermark. */
  function ListedAfter(env: Env, after: Option<int>, tips: seq<int>): seq<int>
    requires |tips| <= |env.programs|
  {
    if after.Some? then Above(Listed(env, tips), after.value) else Listed(env, tips)
  }

  /** Every program was asked once, in turn. */
  ghost predicate FromPolls(env: Env, d: Discovery) {
    |d.tips| == |env.programs| && d.slots == ListedAfter(env, d.after, d.tips)
  }

  /** A discovery lists, in order, what some program's list shows from the start slot on and above the watermark. */
  lemma DiscoveryLists(env: Env, d: Discovery, x: int)
    requires FromPolls(env, d)
    ensures Ascending(d.slots)
    ensures x in d.slots <==>
      && env.startSlot <= x && (d.after.Some? ==> d.after.value < x)
      && exists p :: 0 <= p < |env.programs| && x <= d.tips[p] && env.programs[p](x)
  {
    assert Shown(env, d.tips, x) <==> exists p :: 0 <= p < |env.programs| && x <= d.tips[p] && env.programs[p](x);
  }

  /** No slot was missed between the lists of two programs. */
  ghost predicate GapFree(env: Env, d: Discovery) {
    forall x :: !Hole(env, d, x)
  }

  /** Nothing relevant above the watermark is missing below the end of the list. */
  ghost predicate Closed(env: Env, watermark: int, slots: seq<int>) {
    forall x, y :: y in slots && env.Relevant(x) && env.startSlot <= x <= y && watermark < x ==> x in slots
  }

  /** Below its end a discovery leaves out its holes, and nothing else that is relevant. */
  lemma HolesAreLeftOut(env: Env, d: Discovery, x: int)
    requires FromPolls(env, d) && env.Relevant(x) && Floor(env, d) < x
    ensures Hole(env, d, x) <==> x !in d.slots && exists y :: y in d.slots && x < y
  {
    if x !in d.slots && exists y :: y in d.slots && x < y {
      var p :| 0 <= p < |env.programs| && env.programs[p](x);
      assert x <= d.tips[p] ==> Shown(env, d.tips, x);
    }
  }

  lemma HoleIsRelevant(env: Env, d: Discovery, x: int)
    ensures Hole(env, d, x) ==>
      env.Relevant(x) && Floor(env, d) < x && x !in d.slots && exists y :: y in d.slots && x < y
  {
  }

  /** A discovery lists every relevant slot below its end exactly when it is gap-free. */
  lemma ClosedIff(env: Env, d: Discovery)
    requires FromPolls(env, d)
    ensures Closed(env, Floor(env, d), d.slots) <==> GapFree(env, d)
  {
    if GapFree(env, d) {
      forall x, y | y in d.slots && env.Relevant(x) && env.startSlot <= x <= y && Floor(env, d) < x
        ensures x in d.slots
      {
        HolesAreLeftOut(env, d, x);
      }
    }
    if Closed(env, Floor(env, d), d.slots) {
      forall x ensures !Hole(env, d, x) { HoleIsRelevant(env, d, x); }
    }
  }

  /** What a discovery leaves to be taken from any watermark. */
  lemma PendingAbove(env: Env, ds: seq<Discovery>, d: Discovery, watermark: int)
    requires FromPolls(env, d) && d in ds && Floor(env, d) <= watermark
    ensures Pending(env, ds, watermark, d.slots) && Pending(env, ds, watermark, Above(d.slots, watermark))
  {
    forall x | x in d.slots ensures env.Relevant(x) { assert Shown(env, d.tips, x); }
    forall x, y | y in d.slots && env.Relevant(x) && env.startSlot <= x <= y && watermark < x
      ensures x in d.slots || Missed(env, ds, x)
    {
      HolesAreLeftOut(env, d, x);
    }
  }

  /** More discoveries account for more. */
  lemma GoodWithMore(env: Env, s: State, d: Discovery)
    requires Good(env, s)
    ensures Good(env, s.(discoveries := s.discoveries + [d]))
  {
    MissedGrows(env, s.discoveries, s.discoveries + [d]);
  }

  lemma MissedGrows(env: Env, a: seq<Discovery>, b: seq<Discovery>)
    requires a <= b
    ensures forall x :: Missed(env, a, x) ==> Missed(env, b, x)
  {
    forall x | Missed(env, a, x) ensures Missed(env, b, x) {
      var d :| d in a && Hole(env, d, x);
      assert d in b;
    }
  }

  ghost predicate AllGapFree(env: Env, ds: seq<Discovery>) {
    forall d :: d in ds ==> GapFree(env, d)
  }

  lemma NoneMissed(env: Env, ds: seq<Discovery>)
    requires AllGapFree(env, ds)
    ensures forall x :: !Missed(env, ds, x)
  {
  }

  ghost predicate Reach(tips: seq<int>, head: int) {
    forall p :: 0 <= p < |tips| ==> head <= tips[p]
  }

  ghost predicate NoneUpTo(env: Env, head: int) {
    forall x :: env.Relevant(x) && env.startSlot <= x ==> head < x
  }

  /** An empty full listing that reaches the head means that nothing relevant is at or below the head. */
  lemma EmptyMeansNone(env: Env, d: Discovery, head: int)
    requires FromPolls(env, d) && d.after.None? && d.slots == [] && Reach(d.tips, head)
    ensures NoneUpTo(env, head)
  {
    forall x | env.Relevant(x) && env.startSlot <= x ensures head < x {
      var p :| 0 <= p < |env.programs| && env.programs[p](x);
      assert x <= d.tips[p] ==> Shown(env, d.tips, x);
    }
  }

  // ---------------------------------------------------------------- the polls

  /** One call for each program not yet asked. */
  function PollPrograms(env: Env, s: State, tips: seq<int>, floors: bool): (o: Out<(seq<int>, bool)>)
    requires |tips| <= |env.programs|
    ensures Consumes(s, o.s) && o.s == s.(script := o.s.script)
    ensures Good(env, s) ==> Good(env, o.s)
    ensures o.Next? ==> |o.v.0| == |env.programs|
    decreases |env.programs| - |tips|
  {
    if |tips| == |env.programs| then Next(s, (tips, floors)) else
    var (s1, a) :- Call(env, s);
    PollPrograms(env, s1, tips + [a.tip], floors && a.floors)
  }

  lemma {:induction false} PollsReach(env: Env, s: State, tips: seq<int>, floors: bool, head: int)
    requires |tips| <= |env.programs| && AllCover(s.script, head) && Reach(tips, head)
    ensures var o := PollPrograms(env, s, tips, floors); o.Next? ==> Reach(o.v.0, head)
    decreases |env.programs| - |tips|
  {
    if |tips| < |env.programs| {
      var o := Call(env, s);
      if o.Next? { PollsReach(env, o.s, tips + [o.v.tip], floors && o.v.floors, head); }
    }
  }
}
