/**
 * The history of saved projects (SavedProjectsList.tsx): the sorted list of
 * technology names offered as filters, and the projects shown for a search
 * query and an optional technology filter, newest first.
 */
module SavedProjects {
  import opened Types
  import opened Text

  // ---------------------------------------------------------------------------
  // String order.
  // ---------------------------------------------------------------------------

  /** The order of the default `sort()`: lexicographic by character, a
      proper prefix first. */
  predicate Precedes(a: string, b: string)
    decreases |a|
  {
    if a == [] then b != []
    else if b == [] then false
    else if a[0] != b[0] then a[0] < b[0]
    else Precedes(a[1..], b[1..])
  }

  lemma {:induction false} PrecedesIrreflexive(a: string)
    ensures !Precedes(a, a)
    decreases |a|
  {
    if a != [] {
      PrecedesIrreflexive(a[1..]);
    }
  }

  lemma {:induction false} PrecedesTransitive(a: string, b: string, c: string)
    requires Precedes(a, b) && Precedes(b, c)
    ensures Precedes(a, c)
    decreases |a|
  {
    if a != [] && a[0] == b[0] && b[0] == c[0] {
      PrecedesTransitive(a[1..], b[1..], c[1..]);
    }
  }

  lemma {:induction false} PrecedesTotal(a: string, b: string)
    ensures a == b || Precedes(a, b) || Precedes(b, a)
    decreases |a|
  {
    if a != [] && b != [] && a[0] == b[0] {
      PrecedesTotal(a[1..], b[1..]);
      if a[1..] == b[1..] {
        assert a == [a[0]] + a[1..] && b == [b[0]] + b[1..];
      }
    }
  }

  /** Every element strictly before the next: sorted, without repeats. */
  predicate StrictlySorted(xs: seq<string>) {
    forall i, j :: 0 <= i < j < |xs| ==> Precedes(xs[i], xs[j])
  }

  lemma StrictlySortedDistinct(xs: seq<string>, i: int, j: int)
    requires StrictlySorted(xs) && 0 <= i < j < |xs|
    ensures xs[i] != xs[j]
  {
    PrecedesIrreflexive(xs[i]);
  }

  lemma {:induction false} PrecedesAsymmetric(a: string, b: string)
    ensures Precedes(a, b) ==> !Precedes(b, a)
    decreases |a|
  {
    if a != [] && b != [] && a[0] == b[0] {
      PrecedesAsymmetric(a[1..], b[1..]);
    }
  }

  /** The head of a strictly sorted list precedes every other element. */
  lemma HeadIsLeast(xs: seq<string>, y: string)
    requires StrictlySorted(xs) && y in xs
    ensures y != xs[0] ==> Precedes(xs[0], y)
  {
    var i :| 0 <= i < |xs| && xs[i] == y;
  }

  /** A strictly sorted list is determined by its elements. */
  lemma {:induction false} StrictlySortedUnique(xs: seq<string>, ys: seq<string>)
    requires StrictlySorted(xs) && StrictlySorted(ys)
    requires forall x :: x in xs <==> x in ys
    ensures xs == ys
    decreases |xs|
  {
    assert xs != [] ==> xs[0] in ys;
    assert ys != [] ==> ys[0] in xs;
    if xs != [] && ys != [] {
      HeadIsLeast(xs, ys[0]);
      HeadIsLeast(ys, xs[0]);
      PrecedesAsymmetric(xs[0], ys[0]);
      assert xs[0] == ys[0];
      forall x
        ensures x in xs[1..] <==> x in ys[1..]
      {
        if x in xs[1..] {
          var i :| 0 <= i < |xs[1..]| && xs[1..][i] == x;
          StrictlySortedDistinct(xs, 0, i + 1);
          assert xs[i + 1] == x && x in ys;
          var j :| 0 <= j < |ys| && ys[j] == x;
          assert ys[1..][j - 1] == x;
        }
        if x in ys[1..] {
          var j :| 0 <= j < |ys[1..]| && ys[1..][j] == x;
          StrictlySortedDistinct(ys, 0, j + 1);
          assert ys[j + 1] == x && x in xs;
          var i :| 0 <= i < |xs| && xs[i] == x;
          assert xs[1..][i - 1] == x;
        }
      }
      StrictlySortedUnique(xs[1..], ys[1..]);
    }
  }

  // ---------------------------------------------------------------------------
  // The technology filters.
  // ---------------------------------------------------------------------------

  /** `set.add(x)` on the set kept as a strictly sorted list. */
  function Insert(xs: seq<string>, x: string): seq<string>
    decreases |xs|
  {
    if xs == [] then [x]
    else if xs[0] == x then xs
    else if Precedes(x, xs[0]) then [x] + xs
    else [xs[0]] + Insert(xs[1..], x)
  }

  lemma {:induction false} InsertElements(xs: seq<string>, x: string)
    ensures forall y :: y in Insert(xs, x) <==> y in xs || y == x
    decreases |xs|
  {
    if xs != [] && xs[0] != x && !Precedes(x, xs[0]) {
      InsertElements(xs[1..], x);
      assert xs == [xs[0]] + xs[1..];
    }
  }

  lemma {:induction false} InsertSorted(xs: seq<string>, x: string)
    requires StrictlySorted(xs)
    ensures StrictlySorted(Insert(xs, x))
    decreases |xs|
  {
    if xs != [] && xs[0] != x {
      if Precedes(x, xs[0]) {
        forall j | 1 <= j < |xs| + 1
          ensures Precedes(([x] + xs)[0], ([x] + xs)[j])
        {
          if j > 1 {
            PrecedesTransitive(x, xs[0], xs[j - 1]);
          }
        }
      } else {
        PrecedesTotal(x, xs[0]);
        var rest := Insert(xs[1..], x);
        InsertSorted(xs[1..], x);
        InsertElements(xs[1..], x);
        forall j | 0 <= j < |rest|
          ensures Precedes(xs[0], rest[j])
        {
          assert rest[j] in rest;
          if rest[j] != x {
            var k :| 0 <= k < |xs[1..]| && xs[1..][k] == rest[j];
            assert xs[k + 1] == rest[j];
          }
        }
      }
    }
  }

  /** `options.map(t => t.name)` */
  function Names(options: seq<TechOption>): seq<string> {
    seq(|options|, i requires 0 <= i < |options| => options[i].name)
  }

  /** The technology names of a project: frontend, backend, then database;
      none without an architecture. */
  function TechNames(p: SavedProject): seq<string> {
    match p.result.stage2
    case None => []
    case Some(architecture) =>
      Names(architecture.techStack.frontend)
      + Names(architecture.techStack.backend)
      + Names(architecture.techStack.database)
  }

  /** Every technology name of the projects, project by project. */
  function AllTechNames(projects: seq<SavedProject>): seq<string>
    decreases |projects|
  {
    if projects == [] then [] else TechNames(projects[0]) + AllTechNames(projects[1..])
  }

  /** A name is collected exactly when some project uses it. */
  lemma {:induction false} AllTechNamesIff(projects: seq<SavedProject>, name: string)
    ensures name in AllTechNames(projects) <==> exists p :: p in projects && name in TechNames(p)
    decreases |projects|
  {
    if projects != [] {
      AllTechNamesIff(projects[1..], name);
      if exists p :: p in projects && name in TechNames(p) {
        var p :| p in projects && name in TechNames(p);
        if p != projects[0] {
          assert p in projects[1..];
        }
      }
    }
  }

  lemma AllTechNamesSnoc(projects: seq<SavedProject>, i: int)
    requires 0 <= i < |projects|
    ensures AllTechNames(projects[..i + 1]) == AllTechNames(projects[..i]) + TechNames(projects[i])
  {
    AllTechNamesAppend(projects[..i], [projects[i]]);
    assert projects[..i + 1] == projects[..i] + [projects[i]];
    assert [projects[i]][1..] == [];
  }

  lemma {:induction false} AllTechNamesAppend(a: seq<SavedProject>, b: seq<SavedProject>)
    ensures AllTechNames(a + b) == AllTechNames(a) + AllTechNames(b)
    decreases |a|
  {
    if a == [] {
      assert a + b == b;
    } else {
      assert (a + b)[1..] == a[1..] + b;
      AllTechNamesAppend(a[1..], b);
    }
  }

  /** `options.forEach(t => filters.add(t.name))` */
  method AddNames(filters: seq<string>, options: seq<TechOption>) returns (result: seq<string>)
    requires StrictlySorted(filters)
    ensures StrictlySorted(result)
    ensures forall n :: n in result <==> n in filters || n in Names(options)
  {
    result := filters;
    var j := 0;
    while j < |options|
      invariant 0 <= j <= |options|
      invariant StrictlySorted(result)
      invariant forall n :: n in result <==> n in filters || n in Names(options[..j])
    {
      InsertSorted(result, options[j].name);
      InsertElements(result, options[j].name);
      assert Names(options[..j + 1]) == Names(options[..j]) + [options[j].name];
      result := Insert(result, options[j].name);
      j := j + 1;
    }
    assert options[..j] == options;
  }

  /** `techFilters`: every technology name of every project, each once,
      in sorted order. */
  method TechFilters(projects: seq<SavedProject>) returns (filters: seq<string>)
    ensures StrictlySorted(filters)
    ensures forall n :: n in filters <==> n in AllTechNames(projects)
  {
    assert projects[..0] == [];
    filters := [];
    var i := 0;
    while i < |projects|
      invariant 0 <= i <= |projects|
      invariant StrictlySorted(filters)
      invariant forall n :: n in filters <==> n in AllTechNames(projects[..i])
    {
      var p := projects[i];
      AllTechNamesSnoc(projects, i);
      match p.result.stage2 {
        case None =>
        case Some(architecture) =>
          var stack := architecture.techStack;
          filters := AddNames(filters, stack.frontend);
          filters := AddNames(filters, stack.backend);
          filters := AddNames(filters, stack.database);
      }
      i := i + 1;
    }
    assert projects[..i] == projects;
  }

  /** The filters are the names of the projects, each once, in order: two
      lists with these properties are equal. */
  lemma TechFiltersDetermined(projects: seq<SavedProject>, a: seq<string>, b: seq<string>)
    requires StrictlySorted(a) && forall n :: n in a <==> n in AllTechNames(projects)
    requires StrictlySorted(b) && forall n :: n in b <==> n in AllTechNames(projects)
    ensures a == b
  {
    StrictlySortedUnique(a, b);
  }

  // ---------------------------------------------------------------------------
  // The filtered projects.
  // ---------------------------------------------------------------------------

  /** The title or the description contains the query, ignoring case. */
  predicate MatchesSearch(p: SavedProject, query: string) {
    Contains(ToLower(p.data.title), ToLower(query))
    || Contains(ToLower(p.data.description), ToLower(query))
  }

  /** No filter (`null` or the empty string), or the project uses the
      technology. */
  predicate MatchesTech(p: SavedProject, activeFilter: Option<string>) {
    activeFilter.None? || activeFilter.value == "" || activeFilter.value in TechNames(p)
  }

  /** `projects.filter(...)`, in the given order. */
  function Keep(projects: seq<SavedProject>, query: string, activeFilter: Option<string>): seq<SavedProject>
    decreases |projects|
  {
    if projects == [] then []
    else
      var rest := Keep(projects[1..], query, activeFilter);
      if MatchesSearch(projects[0], query) && MatchesTech(projects[0], activeFilter) then [projects[0]] + rest else rest
  }

  /** Place `p` after every project at least as new: the step of a stable
      sort by `b.timestamp - a.timestamp`. */
  function InsertByTime(sorted: seq<SavedProject>, p: SavedProject): seq<SavedProject>
    decreases |sorted|
  {
    if sorted == [] then [p]
    else if sorted[0].timestamp < p.timestamp then [p] + sorted
    else [sorted[0]] + InsertByTime(sorted[1..], p)
  }

  /** `.sort((a, b) => b.timestamp - a.timestamp)`, stable. */
  function NewestFirst(projects: seq<SavedProject>): seq<SavedProject>
    decreases |projects|
  {
    if projects == [] then []
    else InsertByTime(NewestFirst(projects[..|projects| - 1]), projects[|projects| - 1])
  }

  /** `filteredProjects` */
  function FilteredProjects(projects: seq<SavedProject>, query: string, activeFilter: Option<string>): seq<SavedProject> {
    NewestFirst(Keep(projects, query, activeFilter))
  }

  predicate SortedNewestFirst(ps: seq<SavedProject>) {
    forall i, j :: 0 <= i < j < |ps| ==> ps[i].timestamp >= ps[j].timestamp
  }

  lemma {:induction false} InsertByTimeElements(sorted: seq<SavedProject>, p: SavedProject)
    ensures multiset(InsertByTime(sorted, p)) == multiset(sorted) + multiset{p}
    decreases |sorted|
  {
    if sorted != [] && sorted[0].timestamp >= p.timestamp {
      InsertByTimeElements(sorted[1..], p);
      assert sorted == [sorted[0]] + sorted[1..];
    }
  }

  lemma {:induction false} InsertByTimeSorted(sorted: seq<SavedProject>, p: SavedProject)
    requires SortedNewestFirst(sorted)
    ensures SortedNewestFirst(InsertByTime(sorted, p))
    decreases |sorted|
  {
    if sorted != [] && sorted[0].timestamp >= p.timestamp {
      var rest := InsertByTime(sorted[1..], p);
      InsertByTimeSorted(sorted[1..], p);
      InsertByTimeElements(sorted[1..], p);
      forall j | 0 <= j < |rest|
        ensures sorted[0].timestamp >= rest[j].timestamp
      {
        assert rest[j] in multiset(rest);
        if rest[j] != p {
          assert rest[j] in multiset(sorted[1..]);
          var k :| 0 <= k < |sorted[1..]| && sorted[1..][k] == rest[j];
          assert sorted[k + 1] == rest[j];
        }
      }
    }
  }

  lemma {:induction false} NewestFirstSorted(projects: seq<SavedProject>)
    ensures SortedNewestFirst(NewestFirst(projects))
    ensures multiset(NewestFirst(projects)) == multiset(projects)
    decreases |projects|
  {
    if projects != [] {
      var init := projects[..|projects| - 1];
      NewestFirstSorted(init);
      InsertByTimeSorted(NewestFirst(init), projects[|projects| - 1]);
      InsertByTimeElements(NewestFirst(init), projects[|projects| - 1]);
      assert projects == init + [projects[|projects| - 1]];
    }
  }

  lemma {:induction false} KeepIff(projects: seq<SavedProject>, query: string, activeFilter: Option<string>)
    ensures multiset(Keep(projects, query, activeFilter)) <= multiset(projects)
    ensures forall p :: p in Keep(projects, query, activeFilter) <==>
                         p in projects && MatchesSearch(p, query) && MatchesTech(p, activeFilter)
    decreases |projects|
  {
    if projects != [] {
      KeepIff(projects[1..], query, activeFilter);
      assert projects == [projects[0]] + projects[1..];
    }
  }

  /** The shown projects are drawn from the saved ones, each at most as
      often as it is saved; a project is shown exactly when it matches the
      search and the technology filter; newest first. */
  lemma FilteredProjectsSpec(projects: seq<SavedProject>, query: string, activeFilter: Option<string>)
    ensures var shown := FilteredProjects(projects, query, activeFilter);
            && multiset(shown) <= multiset(projects)
            && (forall p :: p in shown <==> p in projects && MatchesSearch(p, query) && MatchesTech(p, activeFilter))
            && SortedNewestFirst(shown)
  {
    var kept := Keep(projects, query, activeFilter);
    KeepIff(projects, query, activeFilter);
    NewestFirstSorted(kept);
    forall p
      ensures p in FilteredProjects(projects, query, activeFilter) <==> p in kept
    {
      assert p in multiset(FilteredProjects(projects, query, activeFilter)) <==> p in multiset(kept);
    }
  }

  /** The search finds the query, ignoring case, at some offset of the title
      or of the description. */
  lemma MatchesSearchIff(p: SavedProject, query: string)
    ensures MatchesSearch(p, query) <==>
              || (exists i :: OccursAt(ToLower(p.data.title), ToLower(query), i))
              || (exists i :: OccursAt(ToLower(p.data.description), ToLower(query), i))
  {
    ContainsIffOccurs(ToLower(p.data.title), ToLower(query));
    ContainsIffOccurs(ToLower(p.data.description), ToLower(query));
  }

  lemma {:induction false} KeepEverything(projects: seq<SavedProject>)
    ensures Keep(projects, "", None) == projects
    decreases |projects|
  {
    if projects != [] {
      ContainsEmpty(ToLower(projects[0].data.title));
      KeepEverything(projects[1..]);
    }
  }

  /** An empty query without a filter shows every saved project. */
  lemma EmptyQueryShowsAll(projects: seq<SavedProject>)
    ensures multiset(FilteredProjects(projects, "", None)) == multiset(projects)
  {
    KeepEverything(projects);
    NewestFirstSorted(projects);
  }

  /** A project without an architecture has no technology names, so it is
      shown only while no technology filter is active. */
  lemma NoArchitectureNeedsNoFilter(projects: seq<SavedProject>, query: string, activeFilter: Option<string>, p: SavedProject)
    requires p.result.stage2.None?
    requires p in FilteredProjects(projects, query, activeFilter)
    ensures activeFilter.None? || activeFilter.value == ""
  {
    FilteredProjectsSpec(projects, query, activeFilter);
  }
}
