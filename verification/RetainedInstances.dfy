/** Instances kept in a buffer on the GPU from frame to frame, of which only the changed stretch is uploaded again. */
module RetainedInstances {
  import opened Collections

  /** An instance, as its bytes. */
  type Instance = seq<bv8>

  /** The instances set last, the buffer once there is one, and what of it has yet to be written. */
  datatype Retained = Retained(instances: seq<Instance>, buffer: Option<seq<Instance>>, resized: bool, changedFrom: nat, changedTo: nat)

  /** A stretch to draw. */
  datatype Run = Run(first: nat, count: nat)

  // ---- the changed stretch ----

  function FirstChange(a: seq<Instance>, b: seq<Instance>, i: nat): (r: nat)
    requires i <= |a| == |b|
    ensures i <= r <= |a| && (forall j :: i <= j < r ==> a[j] == b[j]) && (r < |a| ==> a[r] != b[r])
    decreases |a| - i
  {
    if i < |a| && a[i] == b[i] then FirstChange(a, b, i + 1) else i
  }

  function LastChange(a: seq<Instance>, b: seq<Instance>, first: nat, i: nat): (r: nat)
    requires first <= i <= |a| == |b|
    ensures first <= r <= i && (forall j :: r <= j < i ==> a[j] == b[j]) && (r > first ==> a[r - 1] != b[r - 1])
  {
    if i > first && a[i - 1] == b[i - 1] then LastChange(a, b, first, i - 1) else i
  }

  // ---- setting and drawing ----

  function SetInstances(r: Retained, given: seq<Instance>): Retained {
    if |given| != |r.instances| then r.(instances := given, resized := true)
    else if r.resized then r.(instances := given)
    else
      var first := FirstChange(given, r.instances, 0);
      var last := LastChange(given, r.instances, first, |given|);
      if first < last then
        r.(instances := given, changedFrom := if r.changedFrom < r.changedTo then Min(r.changedFrom, first) else first,
           changedTo := Max(r.changedTo, last))
      else
        r.(instances := given)
  }

  /** Whether drawing these runs uses the retained buffer at all. */
  predicate Flushes(r: Retained, initialized: bool, instanced: bool, runs: seq<Run>) {
    initialized && runs != [] && r.instances != [] && instanced
  }

  /** The buffer's new contents from one position on. */
  function Overwrite(was: seq<Instance>, at: nat, data: seq<Instance>): seq<Instance>
    requires at + |data| <= |was|
  {
    was[..at] + data + was[at + |data|..]
  }

  predicate Sound(r: Retained) {
    && (r.changedFrom < r.changedTo || r.changedFrom == r.changedTo == 0)
    && (r.buffer.Some? && !r.resized ==>
          && |r.buffer.value| == |r.instances| && r.changedTo <= |r.instances|
          && forall i :: 0 <= i < |r.instances| && !(r.changedFrom <= i < r.changedTo) ==> r.buffer.value[i] == r.instances[i])
  }

  function Draw(r: Retained, initialized: bool, instanced: bool, runs: seq<Run>): Retained
    requires Sound(r)
  {
    if !Flushes(r, initialized, instanced, runs) then r
    else if r.buffer.None? || r.resized then Retained(r.instances, Some(r.instances), false, 0, 0)
    else if r.changedFrom < r.changedTo then
      Retained(r.instances, Some(Overwrite(r.buffer.value, r.changedFrom, r.instances[r.changedFrom..r.changedTo])), false, 0, 0)
    else r
  }

  // ---- what every run of sets and draws keeps ----

  datatype Event =
    | Set(given: seq<Instance>)
    | DrawRuns(initialized: bool, instanced: bool, runs: seq<Run>)

  const BEGIN := Retained([], None, true, 0, 0)

  function After(r: Retained, e: Event): (after: Retained)
    requires Sound(r)
    ensures Sound(after)
  {
    match e
    case Set(given) =>
      SetKeepsSound(r, given);
      SetInstances(r, given)
    case DrawRuns(initialized, instanced, runs) =>
      DrawFlushes(r, initialized, instanced, runs);
      Draw(r, initialized, instanced, runs)
  }

  function AfterAll(es: seq<Event>): (after: Retained)
    ensures Sound(after)
  {
    if es == [] then BEGIN else After(AfterAll(es[..|es| - 1]), es[|es| - 1])
  }

  /** The instances given last. */
  function GivenLast(es: seq<Event>): seq<Instance> {
    if es == [] then [] else if es[|es| - 1].Set? then es[|es| - 1].given else GivenLast(es[..|es| - 1])
  }

  lemma {:induction false} SetKeepsSound(r: Retained, given: seq<Instance>)
    requires Sound(r)
    ensures Sound(SetInstances(r, given)) && SetInstances(r, given).instances == given
  {
  }

  /** A draw that uses the buffer leaves in it just the instances set last. */
  lemma {:induction false} DrawFlushes(r: Retained, initialized: bool, instanced: bool, runs: seq<Run>)
    requires Sound(r)
    ensures var after := Draw(r, initialized, instanced, runs);
            && Sound(after) && after.instances == r.instances
            && (Flushes(r, initialized, instanced, runs) ==> after.buffer == Some(r.instances) && !after.resized)
  {
    if Flushes(r, initialized, instanced, runs) && r.buffer.Some? && !r.resized {
      var data := r.instances[r.changedFrom..r.changedTo];
      if r.changedFrom < r.changedTo {
        assert Overwrite(r.buffer.value, r.changedFrom, data) == r.instances;
      } else {
        assert r.buffer.value == r.instances;
      }
    }
  }

  lemma {:induction false} LastGivenIsKept(es: seq<Event>)
    ensures AfterAll(es).instances == GivenLast(es)
    decreases |es|
  {
    if es != [] {
      LastGivenIsKept(es[..|es| - 1]);
      var before, e := AfterAll(es[..|es| - 1]), es[|es| - 1];
      match e
      case Set(given) => SetKeepsSound(before, given);
      case DrawRuns(initialized, instanced, runs) => DrawFlushes(before, initialized, instanced, runs);
    }
  }

  /** Whatever was set and drawn before, and however often the number changed: a draw that uses the buffer leaves in it
      the instances given last, and before it the buffer is already right outside what is still to be written. */
  lemma {:induction false} UploadsAreEnough(es: seq<Event>, initialized: bool, instanced: bool, runs: seq<Run>)
    requires Flushes(AfterAll(es), initialized, instanced, runs)
    ensures var r, last := AfterAll(es), GivenLast(es);
            && After(r, DrawRuns(initialized, instanced, runs)).buffer == Some(last)
            && (r.buffer.Some? && !r.resized ==>
                  |r.buffer.value| == |last| &&
                  forall i :: 0 <= i < |last| && !(r.changedFrom <= i < r.changedTo) ==> r.buffer.value[i] == last[i])
  {
    LastGivenIsKept(es);
    DrawFlushes(AfterAll(es), initialized, instanced, runs);
  }

  /** Set once since the buffer was right, what is written again is the least stretch with all that changed. */
  lemma {:induction false} OneSetUploadsTheLeast(r: Retained, given: seq<Instance>)
    requires Sound(r) && !r.resized && r.changedFrom == r.changedTo && r.buffer == Some(r.instances) && |given| == |r.instances|
    ensures var after := SetInstances(r, given);
            && after.changedTo <= |given|
            && (forall i :: 0 <= i < |given| && given[i] != r.instances[i] ==> after.changedFrom <= i < after.changedTo)
            && (after.changedFrom < after.changedTo ==>
                  given[after.changedFrom] != r.instances[after.changedFrom]
                  && given[after.changedTo - 1] != r.instances[after.changedTo - 1])
  {
  }

  // ---- the retained instances themselves, and the renderer that draws them ----

  class RetainedBuffer {
    var instances: seq<Instance>
    var buffer: Option<seq<Instance>>
    var resized: bool
    var changedFrom: nat
    var changedTo: nat

    constructor ()
      ensures State() == BEGIN && Sound(State())
    {
      instances, buffer, resized, changedFrom, changedTo := [], None, true, 0, 0;
    }

    function State(): Retained
      reads this
    {
      Retained(instances, buffer, resized, changedFrom, changedTo)
    }

    method SetTo(given: seq<Instance>)
      requires Sound(State())
      modifies this
      ensures Sound(State()) && State() == SetInstances(old(State()), given)
    {
      SetKeepsSound(State(), given);
      if |given| != |instances| {
        resized := true;
      } else if !resized {
        var first := 0;
        while first < |given| && given[first] == instances[first]
          invariant 0 <= first <= |given| && FirstChange(given, instances, first) == FirstChange(given, instances, 0)
        {
          first := first + 1;
        }
        var last := |given|;
        while last > first && given[last - 1] == instances[last - 1]
          invariant first <= last <= |given|
          invariant LastChange(given, instances, first, last) == LastChange(given, instances, first, |given|)
        {
          last := last - 1;
        }
        if first < last {
          changedFrom := if changedFrom < changedTo then Min(changedFrom, first) else first;
          changedTo := Max(changedTo, last);
        }
      }
      instances := given;
    }

    /** What each run draws. */
    method RenderRuns(initialized: bool, instanced: bool, runs: seq<Run>) returns (drawn: seq<seq<Instance>>)
      requires Sound(State()) && forall k :: 0 <= k < |runs| ==> runs[k].first + runs[k].count <= |instances|
      modifies this
      ensures Sound(State()) && State() == Draw(old(State()), initialized, instanced, runs)
      ensures !initialized || instances == [] ==> drawn == []
      ensures initialized && instances != [] ==>
                |drawn| == |runs| &&
                forall k :: 0 <= k < |runs| ==> drawn[k] == instances[runs[k].first..runs[k].first + runs[k].count]
    {
      drawn := [];
      if !initialized || runs == [] || instances == [] {
        return;
      }
      if !instanced {
        for k := 0 to |runs|
          invariant State() == old(State()) && |drawn| == k
          invariant forall j :: 0 <= j < k ==> drawn[j] == instances[runs[j].first..runs[j].first + runs[j].count]
        {
          drawn := drawn + [instances[runs[k].first..runs[k].first + runs[k].count]];
        }
        return;
      }
      DrawFlushes(State(), initialized, instanced, runs);
      Upload();
      for k := 0 to |runs|
        invariant State() == Draw(old(State()), initialized, instanced, runs) && buffer == Some(instances) && |drawn| == k
        invariant forall j :: 0 <= j < k ==> drawn[j] == instances[runs[j].first..runs[j].first + runs[j].count]
      {
        drawn := drawn + [buffer.value[runs[k].first..runs[k].first + runs[k].count]];
      }
    }

    /** Brings the buffer up to date. */
    method Upload()
      requires Sound(State()) && instances != []
      modifies this
      ensures State() == Draw(old(State()), true, true, [Run(0, 0)])
    {
      if buffer == None {
        resized := true;
      }
      if resized {
        buffer := Some(instances);
        resized := false;
        changedFrom, changedTo := 0, 0;
      } else if changedFrom < changedTo {
        buffer := Some(Overwrite(buffer.value, changedFrom, instances[changedFrom..changedTo]));
        changedFrom, changedTo := 0, 0;
      }
    }
  }
}
