/** Giving a group of devices one autonomous system number, with the clean-up of a number
    allocated in vain. */
module SharedAsn {
  import opened Options

  type Device = string
  type Asn = string

  /** A link request is carried out, refused, or carried out although it raised. */
  datatype LinkOutcome = Linked | Refused | LinkedButRaised

  /** `links` is which number each device holds, `nodes` the numbers there are. */
  datatype Graph = Graph(links: map<Device, Asn>, nodes: set<Asn>)

  /** `Kept` and `Nothing` return no number, `Allocated` returns the new one. */
  datatype Outcome = Nothing | Kept | Allocated | Raised

  /** What the environment does to one run. */
  datatype Weather = Weather(offered: Asn, allocates: bool, links: nat -> LinkOutcome, deletes: bool)

  function HeldBy(links: map<Device, Asn>, d: Device): Option<Asn> {
    if d in links then Some(links[d]) else None
  }

  /** The first number held, in the order of the devices. */
  function Anchor(links: map<Device, Asn>, devices: seq<Device>): (r: Option<Asn>) {
    if devices == [] then None
    else if devices[0] in links then Some(links[devices[0]])
    else Anchor(links, devices[1..])
  }

  // --- One run ----------------------------------------------------------------------------

  /** Links from device `k` on; `held` is what was read before the first link. */
  function LinkFrom(links: map<Device, Asn>, held: map<Device, Asn>, devices: seq<Device>, asn: Asn,
                    weather: nat -> LinkOutcome, k: nat): (r: (map<Device, Asn>, bool))
    requires k <= |devices|
    decreases |devices| - k
  {
    if k == |devices| then (links, true)
    else if HeldBy(held, devices[k]) == Some(asn) then LinkFrom(links, held, devices, asn, weather, k + 1)
    else
      match weather(k)
      case Refused => (links, false)
      case LinkedButRaised => (links[devices[k] := asn], false)
      case Linked => LinkFrom(links[devices[k] := asn], held, devices, asn, weather, k + 1)
  }

  /** Deleting a number takes it off every device that holds it. */
  function DeleteAsn(g: Graph, asn: Asn): Graph {
    Graph(map d | d in g.links && g.links[d] != asn :: g.links[d], g.nodes - {asn})
  }

  function Ensured(g: Graph, devices: seq<Device>, w: Weather): (r: (Graph, Outcome)) {
    if devices == [] then (g, Nothing)
    else
      match Anchor(g.links, devices)
      case Some(asn) =>
        var (links, ok) := LinkFrom(g.links, g.links, devices, asn, w.links, 0);
        (g.(links := links), if ok then Kept else Raised)
      case None =>
        if !w.allocates then (g, Raised)
        else
          var (links, ok) := LinkFrom(g.links, g.links, devices, w.offered, w.links, 0);
          var g' := Graph(links, g.nodes + {w.offered});
          if ok then (g', Allocated)
          else (if w.deletes then DeleteAsn(g', w.offered) else g', Raised)
  }

  class Infrahub {
    var links: map<Device, Asn>
    var nodes: set<Asn>

    ghost function State(): Graph
      reads this
    {
      Graph(links, nodes)
    }

    constructor (g: Graph)
      ensures State() == g
    {
      links, nodes := g.links, g.nodes;
    }

    /** `set_device_asn`. */
    method SetDeviceAsn(d: Device, asn: Asn, outcome: LinkOutcome) returns (ok: bool)
      modifies this`links
      ensures links == if outcome == Refused then old(links) else old(links)[d := asn]
      ensures ok <==> outcome == Linked
    {
      if outcome != Refused {
        links := links[d := asn];
      }
      ok := outcome == Linked;
    }

    method Delete(asn: Asn)
      modifies this
      ensures State() == DeleteAsn(old(State()), asn)
    {
      links := map d | d in links && links[d] != asn :: links[d];
      nodes := nodes - {asn};
    }

    /** `ensure_shared_device_asn`. */
    method EnsureSharedDeviceAsn(devices: seq<Device>, w: Weather) returns (r: Outcome)
      modifies this
      ensures (State(), r) == Ensured(old(State()), devices, w)
    {
      if devices == [] {
        return Nothing;
      }
      var held := links;
      var shared: Option<Asn> := None;
      var k := 0;
      while k < |devices| && shared.None?
        invariant 0 <= k <= |devices|
        invariant Anchor(held, devices) == if shared.Some? then shared else Anchor(held, devices[k..])
      {
        shared := HeldBy(held, devices[k]);
        assert devices[k..][1..] == devices[k + 1..];
        k := k + 1;
      }
      var created := false;
      if shared.None? {
        if !w.allocates {
          return Raised;
        }
        nodes := nodes + {w.offered};
        shared := Some(w.offered);
        created := true;
      }
      ghost var before := nodes;
      k := 0;
      while k < |devices|
        invariant 0 <= k <= |devices| && nodes == before
        invariant LinkFrom(held, held, devices, shared.value, w.links, 0)
               == LinkFrom(links, held, devices, shared.value, w.links, k)
      {
        if HeldBy(held, devices[k]) != shared {
          var ok := SetDeviceAsn(devices[k], shared.value, w.links(k));
          if !ok {
            if created && w.deletes {
              Delete(w.offered);
            }
            return Raised;
          }
        }
        k := k + 1;
      }
      r := if created then Allocated else Kept;
    }
  }

  // --- What a run leaves --------------------------------------------------------------------

  /** The devices `ds` now hold the number, and all others what they held. */
  ghost predicate Overlaid(links: map<Device, Asn>, links': map<Device, Asn>, ds: seq<Device>, asn: Asn) {
    forall d :: HeldBy(links', d) == if d in ds then Some(asn) else HeldBy(links, d)
  }

  lemma SameLinks(links: map<Device, Asn>, links': map<Device, Asn>)
    requires forall d :: HeldBy(links, d) == HeldBy(links', d)
    ensures links == links'
  {
    forall d ensures d in links <==> d in links' {
      assert HeldBy(links, d) == HeldBy(links', d);
    }
    forall d | d in links ensures links[d] == links'[d] {
      assert HeldBy(links, d) == HeldBy(links', d);
    }
  }

  lemma OverlaidOne(links: map<Device, Asn>, links': map<Device, Asn>, d: Device, rest: seq<Device>, ds: seq<Device>, asn: Asn)
    requires Overlaid(links[d := asn], links', rest, asn) && ds == [d] + rest
    ensures Overlaid(links, links', ds, asn)
  {
  }

  /** The links a run makes are those of the devices up to some point of the list, and of
      all of them when it gets through. */
  lemma {:induction false} LinkFromReaches(links: map<Device, Asn>, held: map<Device, Asn>, devices: seq<Device>, asn: Asn,
                                           weather: nat -> LinkOutcome, k: nat) returns (n: nat)
    requires k <= |devices|
    requires forall d :: HeldBy(held, d) == Some(asn) ==> HeldBy(links, d) == Some(asn)
    ensures k <= n <= |devices|
    ensures Overlaid(links, LinkFrom(links, held, devices, asn, weather, k).0, devices[k..n], asn)
    ensures LinkFrom(links, held, devices, asn, weather, k).1 ==> n == |devices|
    ensures k < |devices| && HeldBy(held, devices[k]) != Some(asn) ==> (n == k <==> weather(k) == Refused)
    decreases |devices| - k
  {
    n := k;
    if k < |devices| {
      var d := devices[k];
      if HeldBy(held, d) == Some(asn) {
        n := LinkFromReaches(links, held, devices, asn, weather, k + 1);
        assert links[d := asn] == links;
        OverlaidOne(links, LinkFrom(links, held, devices, asn, weather, k).0, d, devices[k + 1..n], devices[k..n], asn);
      } else if weather(k) == Linked {
        n := LinkFromReaches(links[d := asn], held, devices, asn, weather, k + 1);
        OverlaidOne(links, LinkFrom(links, held, devices, asn, weather, k).0, d, devices[k + 1..n], devices[k..n], asn);
      } else if weather(k) == LinkedButRaised {
        n := k + 1;
        assert devices[k..n] == [d];
      }
    }
  }

  /** No device holds a number that does not exist. */
  ghost predicate Sound(g: Graph) {
    g.links.Values <= g.nodes
  }

  ghost predicate AllHold(g: Graph, devices: seq<Device>, asn: Asn) {
    forall d :: d in devices ==> HeldBy(g.links, d) == Some(asn)
  }

  lemma {:induction false} AnchorMeaning(links: map<Device, Asn>, devices: seq<Device>)
    ensures match Anchor(links, devices)
            case None => forall d :: d in devices ==> d !in links
            case Some(asn) => exists i :: 0 <= i < |devices| && HeldBy(links, devices[i]) == Some(asn)
                                          && forall j :: 0 <= j < i ==> devices[j] !in links
  {
    if devices != [] && devices[0] !in links {
      AnchorMeaning(links, devices[1..]);
      if Anchor(links, devices).Some? {
        var i :| 0 <= i < |devices[1..]| && HeldBy(links, devices[1..][i]) == Anchor(links, devices)
              && forall j :: 0 <= j < i ==> devices[1..][j] !in links;
        assert devices[i + 1] == devices[1..][i];
        forall j | 0 <= j < i + 1 ensures devices[j] !in links {
          assert j > 0 ==> devices[j] == devices[1..][j - 1];
        }
      }
    }
  }

  /** The number a run works towards. */
  function Choice(g: Graph, devices: seq<Device>, w: Weather): Asn {
    match Anchor(g.links, devices)
    case Some(asn) => asn
    case None => w.offered
  }

  /** After a run that gets through, all devices hold one number: the first one held in
      their order, or else the one new number. Nothing else changes. */
  lemma SuccessSharesOne(g: Graph, devices: seq<Device>, w: Weather)
    requires devices != [] && Ensured(g, devices, w).1 != Raised
    ensures var (g', outcome) := Ensured(g, devices, w);
            && AllHold(g', devices, Choice(g, devices, w))
            && (outcome == Allocated <==> Anchor(g.links, devices).None?)
            && g'.nodes == (if outcome == Allocated then g.nodes + {w.offered} else g.nodes)
            && (forall d :: d !in devices ==> HeldBy(g'.links, d) == HeldBy(g.links, d))
  {
    var n := LinkFromReaches(g.links, g.links, devices, Choice(g, devices, w), w.links, 0);
    assert devices[0..|devices|] == devices;
  }

  /** A second run finds nothing to do, and makes no link request whatever the weather. */
  lemma {:induction false} SettledLinksNothing(g: Graph, devices: seq<Device>, asn: Asn, weather: nat -> LinkOutcome, k: nat)
    requires k <= |devices| && AllHold(g, devices, asn)
    ensures LinkFrom(g.links, g.links, devices, asn, weather, k) == (g.links, true)
    decreases |devices| - k
  {
    if k < |devices| {
      assert devices[k] in devices;
      SettledLinksNothing(g, devices, asn, weather, k + 1);
    }
  }

  lemma SecondRunChangesNothing(g: Graph, devices: seq<Device>, w: Weather, w2: Weather)
    requires devices != [] && Ensured(g, devices, w).1 != Raised
    ensures Ensured(Ensured(g, devices, w).0, devices, w2) == (Ensured(g, devices, w).0, Kept)
  {
    var g' := Ensured(g, devices, w).0;
    SuccessSharesOne(g, devices, w);
    assert devices[0] in devices;
    SettledLinksNothing(g', devices, Choice(g, devices, w), w2.links, 0);
  }

  /** What a failed run leaves, for whoever tries again. When a number was held, it stays
      the anchor. When none was, clean-up takes everything back; without it the new number
      is the anchor of the next run, unless no device got it, and only then it leaks. */
  lemma FailureCanBeRetried(g: Graph, devices: seq<Device>, w: Weather)
    requires Sound(g) && w.offered !in g.nodes && Ensured(g, devices, w).1 == Raised
    ensures var g' := Ensured(g, devices, w).0;
            match Anchor(g.links, devices)
            case Some(asn) => Anchor(g'.links, devices) == Some(asn) && g'.nodes == g.nodes
            case None =>
              if !w.allocates || w.deletes then g' == g
              else
                && g'.nodes == g.nodes + {w.offered}
                && (w.offered !in g'.links.Values <==> w.links(0) == Refused)
                && Anchor(g'.links, devices) == if w.links(0) == Refused then None else Some(w.offered)
  {
    var asn := Choice(g, devices, w);
    var n := LinkFromReaches(g.links, g.links, devices, asn, w.links, 0);
    AnchorMeaning(g.links, devices);
    var links := LinkFrom(g.links, g.links, devices, asn, w.links, 0).0;
    if n > 0 {
      assert devices[0] in devices[0..n];
      assert HeldBy(links, devices[0]) == Some(asn) && asn in links.Values;
    } else {
      SameLinks(g.links, links);
    }
    if Anchor(g.links, devices).None? && w.allocates {
      assert devices[0] in devices;
      TakeBack(g, devices[0..n], links, asn);
    }
  }

  lemma TakeBack(g: Graph, ds: seq<Device>, links: map<Device, Asn>, asn: Asn)
    requires Sound(g) && asn !in g.nodes && Overlaid(g.links, links, ds, asn)
    requires forall d :: d in ds ==> d !in g.links
    ensures DeleteAsn(Graph(links, g.nodes + {asn}), asn) == g
  {
    var links' := DeleteAsn(Graph(links, g.nodes + {asn}), asn).links;
    forall d ensures HeldBy(g.links, d) == HeldBy(links', d) {
      assert d in g.links ==> g.links[d] in g.links.Values;
      assert HeldBy(links, d) == if d in ds then Some(asn) else HeldBy(g.links, d);
    }
    SameLinks(g.links, links');
  }

  // --- Any number of attempts -------------------------------------------------------------------

  ghost predicate Offers(g: Graph, devices: seq<Device>, runs: seq<Weather>)
    decreases |runs|, 0
  {
    runs == [] || (Offers(g, devices, runs[..|runs| - 1])
                   && runs[|runs| - 1].offered !in After(g, devices, runs[..|runs| - 1]).nodes)
  }

  /** The graph after a series of runs, each offered a number that is new. */
  ghost function After(g: Graph, devices: seq<Device>, runs: seq<Weather>): Graph
    requires Offers(g, devices, runs)
    decreases |runs|, 1
  {
    if runs == [] then g else Ensured(After(g, devices, runs[..|runs| - 1]), devices, runs[|runs| - 1]).0
  }

  lemma RunKeepsSound(g: Graph, devices: seq<Device>, w: Weather)
    requires Sound(g)
    ensures Sound(Ensured(g, devices, w).0)
    ensures g.nodes - {w.offered} <= Ensured(g, devices, w).0.nodes <= g.nodes + {w.offered}
  {
    var asn := Choice(g, devices, w);
    var n := LinkFromReaches(g.links, g.links, devices, asn, w.links, 0);
    AnchorMeaning(g.links, devices);
    var links := LinkFrom(g.links, g.links, devices, asn, w.links, 0).0;
    forall v | v in links.Values ensures v == asn || v in g.links.Values {
      var d :| d in links && links[d] == v;
      assert HeldBy(links, d) == Some(v);
      assert HeldBy(links, d) == if d in devices[0..n] then Some(asn) else HeldBy(g.links, d);
    }
    if Anchor(g.links, devices).Some? {
      var i :| 0 <= i < |devices| && HeldBy(g.links, devices[i]) == Some(asn);
      assert g.links[devices[i]] in g.links.Values;
    }
  }

  /** Once some device holds a number, however many runs follow and however they end, the
      first one held stays what every run works towards, and no number is created. */
  lemma {:induction false} AnchorIsForGood(g: Graph, devices: seq<Device>, runs: seq<Weather>)
    requires Sound(g) && Offers(g, devices, runs) && Anchor(g.links, devices).Some?
    ensures Sound(After(g, devices, runs))
    ensures Anchor(After(g, devices, runs).links, devices) == Anchor(g.links, devices)
    ensures After(g, devices, runs).nodes == g.nodes
    decreases |runs|
  {
    if runs != [] {
      var before, w := runs[..|runs| - 1], runs[|runs| - 1];
      AnchorIsForGood(g, devices, before);
      var mid := After(g, devices, before);
      RunKeepsSound(mid, devices, w);
      if Ensured(mid, devices, w).1 == Raised {
        FailureCanBeRetried(mid, devices, w);
      } else {
        SuccessSharesOne(mid, devices, w);
        assert devices[0] in devices;
      }
    }
  }

  /** A number left without any device, that the run before it did not leave so. */
  ghost predicate Leaks(g: Graph, g': Graph) {
    exists asn :: asn in g'.nodes && asn !in g.nodes && asn !in g'.links.Values
  }

  /** A run leaks a number exactly when it allocated one, its first link was refused, and
      the clean-up failed too. */
  lemma LeaksOnlyWithoutCleanup(g: Graph, devices: seq<Device>, w: Weather)
    requires Sound(g) && w.offered !in g.nodes
    ensures Leaks(g, Ensured(g, devices, w).0)
            <==> devices != [] && Anchor(g.links, devices).None? && w.allocates && w.links(0) == Refused && !w.deletes
  {
    var (g', outcome) := Ensured(g, devices, w);
    RunKeepsSound(g, devices, w);
    if outcome == Raised {
      FailureCanBeRetried(g, devices, w);
      if Anchor(g.links, devices).None? && w.allocates && !w.deletes && w.links(0) == Refused {
        assert w.offered in g'.nodes && w.offered !in g.nodes && w.offered !in g'.links.Values;
      }
    } else if devices != [] {
      SuccessSharesOne(g, devices, w);
      AnchorMeaning(g.links, devices);
      assert devices[0] in devices;
      assert Anchor(g.links, devices).None? ==> g'.links[devices[0]] == w.offered;
    }
  }

  // --- Where a run stops --------------------------------------------------------------------------

  /** The first device that does not hold the number and whose link does not get through. */
  predicate StopsAt(held: map<Device, Asn>, devices: seq<Device>, asn: Asn, weather: nat -> LinkOutcome, from: nat, k: nat) {
    && from <= k < |devices| && !(devices[k] in held && held[devices[k]] == asn) && weather(k) != Linked
    && forall j :: from <= j < k ==> (devices[j] in held && held[devices[j]] == asn) || weather(j) == Linked
  }

  /** `d` is one of the devices up to there, did not hold the number before, and its link was
      made: the last one too, if it was linked although it raised. */
  predicate Gets(held: map<Device, Asn>, devices: seq<Device>, asn: Asn, weather: nat -> LinkOutcome, from: nat, k: nat, d: Device) {
    && !(d in held && held[d] == asn)
    && exists j :: from <= j < |devices| && devices[j] == d && (j < k || (j == k && weather(k) == LinkedButRaised))
  }

  /** The links are made in the order of the devices up to there, and none after. */
  lemma {:induction false} LinksUpTo(links: map<Device, Asn>, held: map<Device, Asn>, devices: seq<Device>, asn: Asn,
                                     weather: nat -> LinkOutcome, from: nat, k: nat, d: Device)
    requires from <= k <= |devices|
    requires if k < |devices| then StopsAt(held, devices, asn, weather, from, k)
             else forall j :: from <= j < k ==> (devices[j] in held && held[devices[j]] == asn) || weather(j) == Linked
    ensures var (links', ok) := LinkFrom(links, held, devices, asn, weather, from);
            && (ok <==> k == |devices|)
            && HeldBy(links', d) == if Gets(held, devices, asn, weather, from, k, d) then Some(asn) else HeldBy(links, d)
    decreases |devices| - from
  {
    if from < |devices| {
      var x := devices[from];
      GetsNext(held, devices, asn, weather, from, k, d);
      if x in held && held[x] == asn {
        LinksUpTo(links, held, devices, asn, weather, from + 1, k, d);
      } else if weather(from) == Linked {
        LinksUpTo(links[x := asn], held, devices, asn, weather, from + 1, k, d);
      }
    }
  }

  lemma GetsNext(held: map<Device, Asn>, devices: seq<Device>, asn: Asn, weather: nat -> LinkOutcome, from: nat, k: nat, d: Device)
    requires from <= k && from < |devices|
    ensures Gets(held, devices, asn, weather, from, k, d) <==>
            || (&& devices[from] == d && !(d in held && held[d] == asn)
                && (from < k || weather(k) == LinkedButRaised))
            || Gets(held, devices, asn, weather, from + 1, k, d)
  {
  }

  /** A run raises exactly when there are devices and either nothing was held and the pool
      gave nothing, or some device without the number could not be linked. */
  lemma RaisedExactly(g: Graph, devices: seq<Device>, w: Weather)
    ensures Ensured(g, devices, w).1 == Raised <==>
            && devices != []
            && var none, asn := Anchor(g.links, devices).None?, Choice(g, devices, w);
               || (none && !w.allocates)
               || exists k :: 0 <= k < |devices| && !(devices[k] in g.links && g.links[devices[k]] == asn) && w.links(k) != Linked
    ensures Choice(g, devices, w) == match Anchor(g.links, devices) case Some(asn) => asn case None => w.offered
  {
    var asn := Choice(g, devices, w);
    var k := FirstStop(g.links, devices, asn, w.links, |devices|);
    LinksUpTo(g.links, g.links, devices, asn, w.links, 0, k, "");
  }

  lemma {:induction false} FirstStop(held: map<Device, Asn>, devices: seq<Device>, asn: Asn, weather: nat -> LinkOutcome, n: nat)
    returns (k: nat)
    requires n <= |devices|
    ensures k <= n
    ensures k < n ==> StopsAt(held, devices, asn, weather, 0, k)
    ensures k == n ==> forall j :: 0 <= j < n ==> (devices[j] in held && held[devices[j]] == asn) || weather(j) == Linked
  {
    if n == 0 {
      k := 0;
    } else {
      k := FirstStop(held, devices, asn, weather, n - 1);
      if k == n - 1 && ((devices[k] in held && held[devices[k]] == asn) || weather(k) == Linked) { k := n; }
    }
  }
}
