/** The roadmap catalog: the built-in seed roadmaps, the insert-if-absent
    seeding run at startup, the domain listing and the roadmap lookup. */
module Catalog {
  import opened Http
  import opened Seqs
  import opened Schemas
  import opened Db

  function Q(prompt: string, options: seq<string>, answerIndex: int): Question {
    Question(prompt, options, answerIndex)
  }

  const FrontendSteps: seq<RoadmapStep> := [
    RoadmapStep(1, "HTML & CSS Basics", "Learn HTML structure and CSS styling.",
      ["https://www.youtube.com/watch?v=G3e-cpL7ofc", "https://www.youtube.com/watch?v=mU6anWqZJcc"],
      [Q("What tag defines a hyperlink?", ["<a>", "<link>", "<href>"], 0),
       Q("Which property changes text color?", ["font", "color", "text"], 1)]),
    RoadmapStep(2, "JavaScript Fundamentals", "Variables, functions, DOM.",
      ["https://www.youtube.com/watch?v=PkZNo7MFNFg"],
      [Q("Which declares a block-scoped variable?", ["var", "let", "function"], 1),
       Q("DOM stands for?", ["Document Object Model", "Data Object Method", "Display Object Map"], 0)]),
    RoadmapStep(3, "React Basics", "Components, state, props.",
      ["https://www.youtube.com/watch?v=bMknfKXIFA8"],
      [Q("State is used to?", ["Style components", "Manage dynamic data", "Route pages"], 1)])
  ]

  const BackendSteps: seq<RoadmapStep> := [
    RoadmapStep(1, "Programming & Git", "Language basics and version control.",
      ["https://www.youtube.com/watch?v=SWYqp7iY_Tc"],
      [Q("git commit does?", ["Send to remote", "Save snapshot", "Create branch"], 1)]),
    RoadmapStep(2, "Node.js & Express", "APIs, routing, middleware.",
      ["https://www.youtube.com/watch?v=L72fhGm1tfE"],
      [Q("Express is?", ["DB", "Framework", "Language"], 1)]),
    RoadmapStep(3, "Databases", "SQL/NoSQL basics.",
      ["https://www.youtube.com/watch?v=E-1xI85Zog8"],
      [Q("NoSQL example?", ["MongoDB", "MySQL", "PostgreSQL"], 0)])
  ]

  const AiMlSteps: seq<RoadmapStep> := [
    RoadmapStep(1, "Python & Numpy", "Python essentials, arrays.",
      ["https://www.youtube.com/watch?v=_uQrJ0TkZlc"],
      [Q("Numpy is used for?", ["Web", "Arrays & math", "OS"], 1)]),
    RoadmapStep(2, "Pandas & Data", "Dataframes, cleaning.",
      ["https://www.youtube.com/watch?v=vmEHCJofslg"],
      [Q("Pandas DataFrame is?", ["2D table", "1D list", "3D cube"], 0)]),
    RoadmapStep(3, "ML Basics", "Supervised vs unsupervised.",
      ["https://www.youtube.com/watch?v=Gv9_4yMHFhI"],
      [Q("Supervised uses?", ["Labels", "No data", "Only images"], 0)])
  ]

  /** The three built-in roadmaps, in declaration order. */
  const SeedRoadmaps: seq<Roadmap> := [
    Roadmap("frontend", FrontendSteps),
    Roadmap("backend", BackendSteps),
    Roadmap("ai-ml", AiMlSteps)
  ]

  /** Step orders run 1, 2, ..., n in sequence. */
  predicate OrdersConsecutive(steps: seq<RoadmapStep>) {
    forall i :: 0 <= i < |steps| ==> steps[i].order == i + 1
  }

  /** Every question's correct index names one of its options. */
  predicate AnswerIndexesInRange(steps: seq<RoadmapStep>) {
    forall i, j :: 0 <= i < |steps| && 0 <= j < |steps[i].questions| ==>
      0 <= steps[i].questions[j].answerIndex < |steps[i].questions[j].options|
  }

  predicate WellFormedSteps(steps: seq<RoadmapStep>) {
    OrdersConsecutive(steps) && AnswerIndexesInRange(steps)
  }

  lemma FrontendStepsWellFormed()
    ensures WellFormedSteps(FrontendSteps)
  {
  }

  lemma BackendStepsWellFormed()
    ensures WellFormedSteps(BackendSteps)
  {
  }

  lemma AiMlStepsWellFormed()
    ensures WellFormedSteps(AiMlSteps)
  {
  }

  lemma SeedDataWellFormed()
    ensures UniqueBy(SeedRoadmaps, DomainOf)
    ensures forall r :: 0 <= r < |SeedRoadmaps| ==> WellFormedSteps(SeedRoadmaps[r].steps)
  {
    FrontendStepsWellFormed();
    BackendStepsWellFormed();
    AiMlStepsWellFormed();
    assert SeedRoadmaps[0].steps == FrontendSteps;
    assert SeedRoadmaps[1].steps == BackendSteps;
    assert SeedRoadmaps[2].steps == AiMlSteps;
  }

  /** Insert each seed whose domain is absent, in seed order; a present
      domain is left as it is. */
  function SeedInto(roadmaps: seq<Roadmap>, seeds: seq<Roadmap>): (r: seq<Roadmap>)
    ensures roadmaps <= r
    ensures forall i :: 0 <= i < |seeds| ==> HasKey(r, DomainOf, seeds[i].domain)
    ensures forall j :: |roadmaps| <= j < |r| ==> r[j] in seeds && !HasKey(roadmaps, DomainOf, r[j].domain)
    decreases |seeds|
  {
    if |seeds| == 0 then roadmaps
    else
      var s := seeds[0];
      match IndexOf(roadmaps, DomainOf, s.domain)
      case Some(k) =>
        assert roadmaps[k].domain == s.domain;
        SeedInto(roadmaps, seeds[1..])
      case None =>
        var next := roadmaps + [s];
        assert next[|roadmaps|].domain == s.domain;
        SeedInto(next, seeds[1..])
  }

  /** Startup seeding: only the roadmap collection changes, existing
      roadmaps are kept as they are, and every seed domain is present after. */
  function EnsureSeeded(st: Store): (st': Store)
    ensures st'.(roadmaps := st.roadmaps) == st
    ensures st.roadmaps <= st'.roadmaps
    ensures forall i :: 0 <= i < |SeedRoadmaps| ==> HasKey(st'.roadmaps, DomainOf, SeedRoadmaps[i].domain)
  {
    st.(roadmaps := SeedInto(st.roadmaps, SeedRoadmaps))
  }

  lemma {:induction false} SeedIntoPresentIsNoop(roadmaps: seq<Roadmap>, seeds: seq<Roadmap>)
    requires forall i :: 0 <= i < |seeds| ==> HasKey(roadmaps, DomainOf, seeds[i].domain)
    ensures SeedInto(roadmaps, seeds) == roadmaps
    decreases |seeds|
  {
    if |seeds| > 0 {
      assert HasKey(roadmaps, DomainOf, seeds[0].domain);
      SeedIntoPresentIsNoop(roadmaps, seeds[1..]);
    }
  }

  /** Seeding twice is the same as seeding once. */
  lemma EnsureSeededIdempotent(st: Store)
    ensures EnsureSeeded(EnsureSeeded(st)) == EnsureSeeded(st)
  {
    SeedIntoPresentIsNoop(EnsureSeeded(st).roadmaps, SeedRoadmaps);
  }

  /** A domain already present keeps its number of roadmaps. */
  lemma {:induction false} SeedIntoKeepsPresentCount(roadmaps: seq<Roadmap>, seeds: seq<Roadmap>, domain: string)
    requires CountBy(roadmaps, DomainOf, domain) >= 1
    ensures CountBy(SeedInto(roadmaps, seeds), DomainOf, domain) == CountBy(roadmaps, DomainOf, domain)
    decreases |seeds|
  {
    if |seeds| > 0 {
      var s := seeds[0];
      if IndexOf(roadmaps, DomainOf, s.domain).None? {
        CountByAppend(roadmaps, s, DomainOf, domain);
        if s.domain == domain {
          assert false;
        }
        SeedIntoKeepsPresentCount(roadmaps + [s], seeds[1..], domain);
      } else {
        SeedIntoKeepsPresentCount(roadmaps, seeds[1..], domain);
      }
    }
  }

  /** An absent domain named by the seed at position `i` ends up with
      exactly one roadmap. */
  lemma {:induction false} SeedIntoAddsAbsentOnce(roadmaps: seq<Roadmap>, seeds: seq<Roadmap>, i: nat)
    requires i < |seeds|
    requires CountBy(roadmaps, DomainOf, seeds[i].domain) == 0
    ensures CountBy(SeedInto(roadmaps, seeds), DomainOf, seeds[i].domain) == 1
    decreases |seeds|
  {
    var s := seeds[0];
    var d := seeds[i].domain;
    if IndexOf(roadmaps, DomainOf, s.domain).None? {
      CountByAppend(roadmaps, s, DomainOf, d);
      if s.domain == d {
        SeedIntoKeepsPresentCount(roadmaps + [s], seeds[1..], d);
      } else {
        assert seeds[1..][i - 1] == seeds[i];
        SeedIntoAddsAbsentOnce(roadmaps + [s], seeds[1..], i - 1);
      }
    } else {
      if s.domain == d {
        assert false;
      }
      assert seeds[1..][i - 1] == seeds[i];
      SeedIntoAddsAbsentOnce(roadmaps, seeds[1..], i - 1);
    }
  }

  /** Seeding leaves exactly one roadmap per seed domain, given at most one
      before, and seeding again changes nothing. */
  lemma SeedingYieldsOneRoadmapPerDomain(st: Store)
    requires forall i :: 0 <= i < |SeedRoadmaps| ==> CountBy(st.roadmaps, DomainOf, SeedRoadmaps[i].domain) <= 1
    ensures forall i :: 0 <= i < |SeedRoadmaps| ==>
      CountBy(EnsureSeeded(EnsureSeeded(st)).roadmaps, DomainOf, SeedRoadmaps[i].domain) == 1
  {
    EnsureSeededIdempotent(st);
    forall i | 0 <= i < |SeedRoadmaps|
      ensures CountBy(EnsureSeeded(st).roadmaps, DomainOf, SeedRoadmaps[i].domain) == 1
    {
      if CountBy(st.roadmaps, DomainOf, SeedRoadmaps[i].domain) == 0 {
        SeedIntoAddsAbsentOnce(st.roadmaps, SeedRoadmaps, i);
      } else {
        SeedIntoKeepsPresentCount(st.roadmaps, SeedRoadmaps, SeedRoadmaps[i].domain);
      }
    }
  }

  /** Seeds with distinct domains, none of them present, are all appended
      in seed order. */
  lemma {:induction false} SeedIntoFreshAppendsAll(roadmaps: seq<Roadmap>, seeds: seq<Roadmap>)
    requires UniqueBy(seeds, DomainOf)
    requires forall i :: 0 <= i < |seeds| ==> !HasKey(roadmaps, DomainOf, seeds[i].domain)
    ensures SeedInto(roadmaps, seeds) == roadmaps + seeds
    decreases |seeds|
  {
    if |seeds| > 0 {
      var s := seeds[0];
      var rest := seeds[1..];
      assert !HasKey(roadmaps, DomainOf, s.domain);
      assert IndexOf(roadmaps, DomainOf, s.domain).None?;
      assert SeedInto(roadmaps, seeds) == SeedInto(roadmaps + [s], rest);
      forall i | 0 <= i < |rest|
        ensures !HasKey(roadmaps + [s], DomainOf, rest[i].domain)
      {
        assert rest[i] == seeds[i + 1];
        assert DomainOf(seeds[0]) != DomainOf(seeds[i + 1]);
        HasKeyAppend(roadmaps, DomainOf, s, rest[i].domain);
      }
      UniqueByTail(seeds, DomainOf);
      SeedIntoFreshAppendsAll(roadmaps + [s], rest);
      assert roadmaps + [s] + rest == roadmaps + seeds;
    }
  }

  /** GET /roadmaps: the domain of every stored roadmap, in store order. */
  function ListDomains(st: Store): (names: seq<string>)
    ensures |names| == |st.roadmaps|
    ensures forall j :: 0 <= j < |names| ==> names[j] == st.roadmaps[j].domain
    ensures forall d :: d in names <==> HasKey(st.roadmaps, DomainOf, d)
  {
    var names := seq(|st.roadmaps|, i requires 0 <= i < |st.roadmaps| => st.roadmaps[i].domain);
    assert forall j :: 0 <= j < |st.roadmaps| ==> names[j] == st.roadmaps[j].domain;
    names
  }

  /** GET /roadmaps/{domain}: the steps of the first roadmap of that domain,
      or 404 when there is none. */
  function GetRoadmap(st: Store, domain: string): (r: Result<seq<RoadmapStep>>)
    ensures r.Err? <==> !HasKey(st.roadmaps, DomainOf, domain)
    ensures r.Err? ==> r.error == HttpError(NotFound, "Roadmap not found")
    ensures r.Ok? ==> exists j ::
      && 0 <= j < |st.roadmaps| && st.roadmaps[j].domain == domain
      && (forall m :: 0 <= m < j ==> st.roadmaps[m].domain != domain)
      && r.value == st.roadmaps[j].steps
  {
    match IndexOf(st.roadmaps, DomainOf, domain)
    case None => Err(HttpError(NotFound, "Roadmap not found"))
    case Some(i) =>
      assert forall m :: 0 <= m < i ==> st.roadmaps[m].domain != domain by {
        forall m | 0 <= m < i ensures st.roadmaps[m].domain != domain {
          assert DomainOf(st.roadmaps[m]) != domain;
        }
      }
      Ok(st.roadmaps[i].steps)
  }

  lemma SeedingEmptyStoreStoresSeeds()
    ensures EnsureSeeded(EmptyStore).roadmaps == SeedRoadmaps
  {
    SeedDataWellFormed();
    SeedIntoFreshAppendsAll([], SeedRoadmaps);
  }

  lemma SeededStoreListsSeedDomains()
    ensures ListDomains(EnsureSeeded(EmptyStore)) == ["frontend", "backend", "ai-ml"]
  {
    SeedingEmptyStoreStoresSeeds();
  }

  lemma SeededStoreServesSeedSteps(i: nat)
    requires i < |SeedRoadmaps|
    ensures GetRoadmap(EnsureSeeded(EmptyStore), SeedRoadmaps[i].domain) == Ok(SeedRoadmaps[i].steps)
  {
    SeedingEmptyStoreStoresSeeds();
    SeedDataWellFormed();
    IndexOfUnique(SeedRoadmaps, DomainOf, i);
  }

  /** After seeding an empty store, the three seed domains are listed in
      seed order and each is served with exactly its seed steps. */
  lemma SeededStoreServesSeeds()
    ensures ListDomains(EnsureSeeded(EmptyStore)) == ["frontend", "backend", "ai-ml"]
    ensures forall i :: 0 <= i < |SeedRoadmaps| ==>
      GetRoadmap(EnsureSeeded(EmptyStore), SeedRoadmaps[i].domain) == Ok(SeedRoadmaps[i].steps)
  {
    SeededStoreListsSeedDomains();
    forall i | 0 <= i < |SeedRoadmaps|
      ensures GetRoadmap(EnsureSeeded(EmptyStore), SeedRoadmaps[i].domain) == Ok(SeedRoadmaps[i].steps)
    {
      SeededStoreServesSeedSteps(i);
    }
  }
}
