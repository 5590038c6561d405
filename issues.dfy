/**
 * The organisation-wide issue board: it splits the fetched issue snapshot into
 * pinned and other issues, offers the categories (primary languages) found in
 * the snapshot, narrows both lists to a selected category, and chooses between
 * the progress indicator, the error panel and the board.
 */
module Issues {
  import opened Wrappers
  import opened Seqs
  import opened Synergy

  const NoPinnedIssuesMessage := "No Pinned Inner-Source issues found."
  const NoOtherIssuesMessage := "No Inner-Source issues found."

  predicate IsPinned(issue: Issue)
  {
    issue.isPinned
  }

  predicate IsOpen(issue: Issue)
  {
    !issue.isPinned
  }

  /** The test the category filter applies to each issue: its language equals the selection exactly. */
  function HasLanguage(category: string): (test: Issue -> bool)
    ensures forall i :: test(i) <==> i.primaryLanguage.Some? && i.primaryLanguage.value == category
  {
    (issue: Issue) => issue.primaryLanguage == Some(category)
  }

  /** The complement of `HasLanguage`: the issues a selection drops. */
  function LacksLanguage(category: string): (test: Issue -> bool)
    ensures forall i :: test(i) == !HasLanguage(category)(i)
  {
    (issue: Issue) => issue.primaryLanguage != Some(category)
  }

  // ---------------------------------------------------------------------------
  // Snapshot partition

  /** The loop the snapshot effect runs: each issue is pushed onto `pinned` or `open` by its flag. */
  method Partition(issuesList: seq<Issue>) returns (open: seq<Issue>, pinned: seq<Issue>)
    ensures open == Filter(issuesList, IsOpen)
    ensures pinned == Filter(issuesList, IsPinned)
  {
    open, pinned := [], [];
    for k := 0 to |issuesList|
      invariant open == Filter(issuesList[..k], IsOpen)
      invariant pinned == Filter(issuesList[..k], IsPinned)
    {
      var issue := issuesList[k];
      assert issuesList[..k + 1] == issuesList[..k] + [issue];
      FilterSnoc(issuesList[..k], issue, IsOpen);
      FilterSnoc(issuesList[..k], issue, IsPinned);
      if issue.isPinned {
        pinned := pinned + [issue];
      } else {
        open := open + [issue];
      }
    }
    assert issuesList[..|issuesList|] == issuesList;
  }

  /**
   * The split is exhaustive and disjoint and keeps the snapshot's order: the
   * snapshot is a merge of the pinned and the other issues, and an issue is on
   * the pinned list exactly when it carries the flag.
   */
  lemma PartitionIsExact(snapshot: seq<Issue>)
    ensures Interleaves(snapshot, Filter(snapshot, IsPinned), Filter(snapshot, IsOpen))
    ensures forall i :: i in Filter(snapshot, IsPinned) <==> i in snapshot && i.isPinned
    ensures forall i :: i in Filter(snapshot, IsOpen) <==> i in snapshot && !i.isPinned
  {
    FilterSplit(snapshot, IsPinned, IsOpen);
  }

  /** Every issue of the snapshot lands on exactly one of the two lists. */
  lemma PartitionCounts(snapshot: seq<Issue>)
    ensures |Filter(snapshot, IsPinned)| + |Filter(snapshot, IsOpen)| == |snapshot|
    ensures multiset(Filter(snapshot, IsPinned)) + multiset(Filter(snapshot, IsOpen)) == multiset(snapshot)
  {
    PartitionIsExact(snapshot);
    InterleavesCounts(snapshot, Filter(snapshot, IsPinned), Filter(snapshot, IsOpen));
  }

  // ---------------------------------------------------------------------------
  // Categories

  /** The languages of the issues, in issue order. */
  function PrimaryLanguages(s: seq<Issue>): seq<Option<string>>
  {
    seq(|s|, k requires 0 <= k < |s| => s[k].primaryLanguage)
  }

  /** The truthy `primaryLanguage` values of the issues, in issue order, repetitions kept. */
  function Languages(s: seq<Issue>): (r: seq<string>)
    ensures forall x :: x in r <==> x != "" && exists i :: i in s && i.primaryLanguage == Some(x)
  {
    if s == [] then []
    else
      var init, last := s[..|s| - 1], s[|s| - 1];
      assert s == init + [last];
      Languages(init) + (if TruthyText(last.primaryLanguage) then [last.primaryLanguage.value] else [])
  }

  /** The dropdown's categories: the distinct truthy languages of the snapshot; none without one. */
  function Categories(issuesList: Option<seq<Issue>>): (r: seq<string>)
    ensures issuesList.None? ==> r == []
    ensures NoDuplicates(r)
    ensures issuesList.Some? ==>
      forall x :: x in r <==> x != "" && exists i :: i in issuesList.value && i.primaryLanguage == Some(x)
  {
    match issuesList
    case None => []
    case Some(s) => Distinct(Languages(s))
  }

  /** One more issue adds its language, if truthy, at the end. */
  lemma LanguagesSnoc(s: seq<Issue>, issue: Issue)
    ensures Languages(s + [issue])
         == Languages(s) + (if TruthyText(issue.primaryLanguage) then [issue.primaryLanguage.value] else [])
  {
    assert (s + [issue])[..|s|] == s;
  }

  /** A category is listed exactly when it is a truthy language of some issue. */
  lemma CategoriesListed(s: seq<Issue>)
    ensures forall y :: y in Categories(Some(s)) <==> y != "" && Some(y) in PrimaryLanguages(s)
  {
    var langs := PrimaryLanguages(s);
    forall y | y != "" && Some(y) in langs ensures y in Categories(Some(s)) {
      var k :| 0 <= k < |langs| && langs[k] == Some(y);
      assert s[k] in s;
    }
    forall y | y in Categories(Some(s)) ensures Some(y) in langs {
      var i :| i in s && i.primaryLanguage == Some(y);
      var k :| 0 <= k < |s| && s[k] == i;
      assert langs[k] == Some(y);
    }
  }

  /** `prepareCategories`: a loop that adds each truthy language to an insertion-ordered set. */
  method PrepareCategories(projectsIssues: Option<seq<Issue>>) returns (categories: seq<string>)
    ensures categories == Categories(projectsIssues)
  {
    if projectsIssues.None? {
      return [];
    }
    var s := projectsIssues.value;
    categories := [];
    for k := 0 to |s|
      invariant categories == Distinct(Languages(s[..k]))
    {
      var issue := s[k];
      assert s[..k + 1] == s[..k] + [issue];
      LanguagesSnoc(s[..k], issue);
      if TruthyText(issue.primaryLanguage) {
        var language := issue.primaryLanguage.value;
        DistinctSnoc(Languages(s[..k]), language);
        if language !in categories {
          categories := categories + [language];
        }
        assert categories == Distinct(Languages(s[..k]) + [language]);
        assert Languages(s[..k + 1]) == Languages(s[..k]) + [language];
      } else {
        assert Languages(s[..k + 1]) == Languages(s[..k]);
      }
    }
    assert s[..|s|] == s;
  }

  /** One more issue appends its language to the categories if it is truthy and new, and changes nothing otherwise. */
  lemma CategoriesSnoc(init: seq<Issue>, last: Issue)
    ensures var r, before := Categories(Some(init + [last])), Categories(Some(init));
      var added := TruthyText(last.primaryLanguage) && Some(last.primaryLanguage.value) !in PrimaryLanguages(init);
      && (added ==> r == before + [last.primaryLanguage.value])
      && (!added ==> r == before)
  {
    LanguagesSnoc(init, last);
    assert Categories(Some(init + [last])) == Distinct(Languages(init + [last]));
    assert Categories(Some(init)) == Distinct(Languages(init));
    if TruthyText(last.primaryLanguage) {
      var x := last.primaryLanguage.value;
      DistinctSnoc(Languages(init), x);
      assert Languages(init + [last]) == Languages(init) + [x];
      CategoriesListed(init);
      assert x in Categories(Some(init)) <==> Some(x) in PrimaryLanguages(init);
      if x in Categories(Some(init)) {
        assert Categories(Some(init + [last])) == Categories(Some(init));
      } else {
        assert Categories(Some(init + [last])) == Categories(Some(init)) + [x];
        assert Some(x) !in PrimaryLanguages(init);
      }
    } else {
      assert Languages(init + [last]) == Languages(init);
    }
  }

  /** A category is listed before another exactly when its first issue comes before the other's first issue. */
  lemma {:induction false} CategoriesInFirstAppearanceOrder(s: seq<Issue>)
    ensures var r, langs := Categories(Some(s)), PrimaryLanguages(s);
      forall i, j :: 0 <= i < j < |r| ==>
        Some(r[i]) in langs && Some(r[j]) in langs && IndexOf(langs, Some(r[i])) < IndexOf(langs, Some(r[j]))
  {
    if s != [] {
      var init, last := s[..|s| - 1], s[|s| - 1];
      assert s == init + [last];
      CategoriesInFirstAppearanceOrder(init);
      assert PrimaryLanguages(s) == PrimaryLanguages(init) + [last.primaryLanguage];
      CategoriesSnoc(init, last);
      CategoriesListed(init);
      FirstAppearanceStep(Categories(Some(init)), Categories(Some(s)), PrimaryLanguages(init), last.primaryLanguage);
    }
  }

  /** The induction step of the ordering: an appended category first appears after all earlier ones. */
  lemma FirstAppearanceStep(before: seq<string>, r: seq<string>, initLangs: seq<Option<string>>, last: Option<string>)
    requires forall y :: y in before ==> Some(y) in initLangs
    requires forall i, j :: 0 <= i < j < |before| ==>
      Some(before[i]) in initLangs && Some(before[j]) in initLangs
      && IndexOf(initLangs, Some(before[i])) < IndexOf(initLangs, Some(before[j]))
    requires r == before || (last.Some? && r == before + [last.value] && last !in initLangs)
    ensures var langs := initLangs + [last];
      forall i, j :: 0 <= i < j < |r| ==>
        Some(r[i]) in langs && Some(r[j]) in langs && IndexOf(langs, Some(r[i])) < IndexOf(langs, Some(r[j]))
  {
    var langs := initLangs + [last];
    forall i, j | 0 <= i < j < |r|
      ensures Some(r[i]) in langs && Some(r[j]) in langs && IndexOf(langs, Some(r[i])) < IndexOf(langs, Some(r[j]))
    {
      assert r[i] == before[i] && Some(r[i]) in initLangs;
      IndexOfAppend(initLangs, [last], Some(r[i]));
      if j < |before| {
        assert r[j] == before[j] && Some(r[j]) in initLangs;
        IndexOfAppend(initLangs, [last], Some(r[j]));
      } else {
        assert Some(r[j]) == last && Some(r[j]) !in initLangs;
      }
    }
  }

  // ---------------------------------------------------------------------------
  // Category filter

  /** What a selection leaves of one baseline: all of it for "", else its issues whose language is exactly the selection. */
  function Selection(baseline: seq<Issue>, category: string): (r: seq<Issue>)
    ensures category == "" ==> r == baseline
    ensures category != "" ==> forall i :: i in r <==> i in baseline && i.primaryLanguage == Some(category)
  {
    if category == "" then baseline else Filter(baseline, HasLanguage(category))
  }

  /** A selection keeps a sub-sequence of its baseline, order included. */
  lemma SelectionWithinBaseline(baseline: seq<Issue>, category: string)
    ensures IsSubsequence(Selection(baseline, category), baseline)
  {
    if category == "" {
      SubsequenceReflexive(baseline);
    } else {
      FilterIsSubsequence(baseline, HasLanguage(category));
    }
  }

  /** Applying a selection to its own result changes nothing. */
  lemma SelectionIdempotent(baseline: seq<Issue>, category: string)
    ensures Selection(Selection(baseline, category), category) == Selection(baseline, category)
  {
    if category != "" {
      FilterIdempotent(baseline, HasLanguage(category));
    }
  }

  /**
   * A selection other than "" keeps every copy of each matching issue and no copy
   * of any other: with the issues it drops, it makes up the baseline exactly.
   */
  lemma SelectionExact(baseline: seq<Issue>, category: string)
    ensures category != "" ==>
      multiset(Selection(baseline, category)) + multiset(Filter(baseline, LacksLanguage(category))) == multiset(baseline)
    ensures category != "" ==> forall i ::
      multiset(Selection(baseline, category))[i]
        == if i.primaryLanguage == Some(category) then multiset(baseline)[i] else 0
  {
    if category != "" {
      var keep, drop := HasLanguage(category), LacksLanguage(category);
      FilterSplit(baseline, keep, drop);
      InterleavesCounts(baseline, Filter(baseline, keep), Filter(baseline, drop));
      forall i ensures multiset(Selection(baseline, category))[i]
        == if i.primaryLanguage == Some(category) then multiset(baseline)[i] else 0
      {
        if i.primaryLanguage == Some(category) {
          assert i !in Filter(baseline, drop);
        } else {
          assert i !in Selection(baseline, category);
        }
      }
    }
  }

  // ---------------------------------------------------------------------------
  // View

  datatype BoardView =
    | Progress
    | ErrorPanel(error: ApiError)
    | Board(categories: seq<string>, current: string, pinnedCard: Content, otherCard: Content)

  /** A card's body: the list when there is something to list, else its fixed message. */
  function Card(issues: seq<Issue>, message: string): (c: Content)
    ensures c.IssuesList? <==> issues != []
    ensures c.IssuesList? ==> c.issues == issues
    ensures !c.IssuesList? ==> c == Paragraph(message)
  {
    if |issues| != 0 then IssuesList(issues) else Paragraph(message)
  }

  // ---------------------------------------------------------------------------
  // Controller

  class IssueBoard {
    /** The value the issue fetch reports at present; None until it has one. */
    var issuesList: Option<seq<Issue>>
    var issues: seq<Issue>
    var pinnedIssues: seq<Issue>
    var filteredIssues: seq<Issue>
    var filteredPinnedIssues: seq<Issue>
    var category: string

    /** The baselines are the partition of the held snapshot, and each filtered list is a sub-sequence of its baseline. */
    ghost predicate Valid()
      reads this
    {
      && (issuesList.Some? ==>
            issues == Filter(issuesList.value, IsOpen) && pinnedIssues == Filter(issuesList.value, IsPinned))
      && IsSubsequence(filteredIssues, issues)
      && IsSubsequence(filteredPinnedIssues, pinnedIssues)
    }

    constructor ()
      ensures Valid()
      ensures issuesList == None && category == ""
      ensures issues == [] && pinnedIssues == [] && filteredIssues == [] && filteredPinnedIssues == []
    {
      issuesList := None;
      issues, pinnedIssues := [], [];
      filteredIssues, filteredPinnedIssues := [], [];
      category := "";
    }

    /**
     * The fetched value changes to `snapshot`. A present snapshot (even an empty one)
     * is partitioned and both filtered lists are reset to the new baselines; the
     * selected category is kept as it was. An absent one leaves the state alone.
     */
    method OnSnapshot(snapshot: Option<seq<Issue>>)
      requires Valid()
      modifies this
      ensures Valid()
      ensures issuesList == snapshot
      ensures category == old(category)
      ensures snapshot.None? ==>
        && issues == old(issues) && pinnedIssues == old(pinnedIssues)
        && filteredIssues == old(filteredIssues) && filteredPinnedIssues == old(filteredPinnedIssues)
      ensures snapshot.Some? ==>
        && issues == Filter(snapshot.value, IsOpen) && pinnedIssues == Filter(snapshot.value, IsPinned)
        && filteredIssues == issues && filteredPinnedIssues == pinnedIssues
    {
      issuesList := snapshot;
      if snapshot.Some? {
        var open, pinned := Partition(snapshot.value);
        issues, pinnedIssues := open, pinned;
        filteredIssues, filteredPinnedIssues := open, pinned;
        SubsequenceReflexive(open);
        SubsequenceReflexive(pinned);
      }
    }

    /**
     * The dropdown selects `currentCategory`. With a snapshot held, both filtered
     * lists become the selection from their baselines and the category is
     * recorded, whatever the lists come to; without one nothing happens.
     */
    method FilterByCategory(currentCategory: string)
      requires Valid()
      modifies this
      ensures Valid()
      ensures issuesList == old(issuesList) && issues == old(issues) && pinnedIssues == old(pinnedIssues)
      ensures issuesList.None? ==>
        && filteredIssues == old(filteredIssues) && filteredPinnedIssues == old(filteredPinnedIssues)
        && category == old(category)
      ensures issuesList.Some? ==>
        && filteredIssues == Selection(issues, currentCategory)
        && filteredPinnedIssues == Selection(pinnedIssues, currentCategory)
        && category == currentCategory
    {
      if issuesList.Some? {
        if currentCategory != "" {
          filteredIssues := Filter(issues, HasLanguage(currentCategory));
          filteredPinnedIssues := Filter(pinnedIssues, HasLanguage(currentCategory));
        } else {
          filteredIssues := issues;
          filteredPinnedIssues := pinnedIssues;
        }
        SelectionWithinBaseline(issues, currentCategory);
        SelectionWithinBaseline(pinnedIssues, currentCategory);
        category := currentCategory;
      }
    }

    /** Loading beats an error, an error beats the board; the board lists a card's issues only when there are any. */
    function View(loading: bool, error: Option<ApiError>): (v: BoardView)
      reads this
      ensures loading ==> v == Progress
      ensures !loading && error.Some? ==> v == ErrorPanel(error.value)
      ensures !loading && error.None? ==>
        && v.Board?
        && v.categories == Categories(issuesList)
        && v.current == category
        && v.pinnedCard == Card(filteredPinnedIssues, NoPinnedIssuesMessage)
        && v.otherCard == Card(filteredIssues, NoOtherIssuesMessage)
    {
      if loading then Progress
      else if error.Some? then ErrorPanel(error.value)
      else Board(Categories(issuesList), category,
                 Card(filteredPinnedIssues, NoPinnedIssuesMessage),
                 Card(filteredIssues, NoOtherIssuesMessage))
    }
  }

  /** Every issue the board lists comes from the held snapshot and sits on the card its flag names. */
  lemma BoardListsOnlySnapshotIssues(b: IssueBoard)
    requires b.Valid() && b.issuesList.Some?
    ensures var v := b.View(false, None);
      && (v.pinnedCard.IssuesList? ==>
            forall i :: i in v.pinnedCard.issues ==> i in b.issuesList.value && i.isPinned)
      && (v.otherCard.IssuesList? ==>
            forall i :: i in v.otherCard.issues ==> i in b.issuesList.value && !i.isPinned)
  {
    SubsequenceMembers(b.filteredPinnedIssues, b.pinnedIssues);
    SubsequenceMembers(b.filteredIssues, b.issues);
  }

  /** With an empty snapshot held, both cards show their placeholder and the dropdown offers nothing. */
  lemma EmptySnapshotShowsPlaceholders(b: IssueBoard)
    requires b.Valid() && b.issuesList == Some([])
    ensures b.View(false, None) == Board([], b.category, Paragraph(NoPinnedIssuesMessage), Paragraph(NoOtherIssuesMessage))
  {
  }

  /**
   * Two selections in a row leave what the second alone would leave: every
   * selection starts again from the unchanged baselines.
   */
  method SelectTwice(b: IssueBoard, first: string, second: string)
    requires b.Valid()
    modifies b
    ensures b.Valid()
    ensures b.issuesList == old(b.issuesList)
    ensures b.issues == old(b.issues) && b.pinnedIssues == old(b.pinnedIssues)
    ensures old(b.issuesList).None? ==>
      && b.filteredIssues == old(b.filteredIssues) && b.filteredPinnedIssues == old(b.filteredPinnedIssues)
      && b.category == old(b.category)
    ensures old(b.issuesList).Some? ==>
      && b.filteredIssues == Selection(old(b.issues), second)
      && b.filteredPinnedIssues == Selection(old(b.pinnedIssues), second)
      && b.category == second
  {
    b.FilterByCategory(first);
    b.FilterByCategory(second);
  }

  const GoPinned := Issue("a", "u1", Some("Go"), true)
  const GoOpen := Issue("b", "u2", Some("Go"), false)
  const RustOpen := Issue("c", "u3", Some("Rust"), false)

  /** Three issues in two languages: how they split. */
  lemma GoAndRustPartition()
    ensures Filter([GoPinned, GoOpen, RustOpen], IsPinned) == [GoPinned]
    ensures Filter([GoPinned, GoOpen, RustOpen], IsOpen) == [GoOpen, RustOpen]
  {
    var snapshot := [GoPinned, GoOpen, RustOpen];
    assert snapshot[1..] == [GoOpen, RustOpen] && [GoOpen, RustOpen][1..] == [RustOpen] && [RustOpen][1..] == [];
    assert Filter([RustOpen], IsPinned) == [];
    assert Filter([RustOpen], IsOpen) == [RustOpen];
    assert Filter([GoOpen, RustOpen], IsPinned) == [];
    assert Filter([GoOpen, RustOpen], IsOpen) == [GoOpen] + [RustOpen];
  }

  /** The same three issues offer two categories, in the order they first appear. */
  lemma GoAndRustCategories()
    ensures Categories(Some([GoPinned, GoOpen, RustOpen])) == ["Go", "Rust"]
  {
    assert [GoPinned] == [] + [GoPinned];
    assert [GoPinned, GoOpen] == [GoPinned] + [GoOpen];
    assert [GoPinned, GoOpen, RustOpen] == [GoPinned, GoOpen] + [RustOpen];
    LanguagesSnoc([], GoPinned);
    assert Languages([GoPinned]) == ["Go"];
    LanguagesSnoc([GoPinned], GoOpen);
    assert Languages([GoPinned, GoOpen]) == ["Go", "Go"];
    LanguagesSnoc([GoPinned, GoOpen], RustOpen);
    assert Languages([GoPinned, GoOpen, RustOpen]) == ["Go", "Go", "Rust"];
    DistinctOfGoGoRust();
  }

  lemma DistinctOfGoGoRust()
    ensures Distinct(["Go", "Go", "Rust"]) == ["Go", "Rust"]
  {
    var go, rust := "Go", "Rust";
    assert go != rust;
    assert [go] == [] + [go] && [go, go] == [go] + [go] && [go, go, rust] == [go, go] + [rust];
    DistinctSnoc([], go);
    assert Distinct([go]) == [go];
    DistinctSnoc([go], go);
    assert Distinct([go, go]) == [go];
    DistinctSnoc([go, go], rust);
    assert Distinct([go, go, rust]) == [go] + [rust];
  }

  /** Selecting "Go" keeps the Go issues on both cards. */
  lemma GoSelection()
    ensures Selection([GoPinned], "Go") == [GoPinned]
    ensures Selection([GoOpen, RustOpen], "Go") == [GoOpen]
  {
    var go := HasLanguage("Go");
    assert go(GoPinned) && go(GoOpen) && !go(RustOpen);
    assert [GoOpen, RustOpen][1..] == [RustOpen] && [RustOpen][1..] == [] && [GoPinned][1..] == [];
    assert Filter([RustOpen], go) == [];
    assert Filter([GoOpen, RustOpen], go) == [GoOpen] + Filter([RustOpen], go);
  }

  /** The board over those three issues, before and after selecting "Go". */
  method GoAndRustExample() returns (before: BoardView, after: BoardView)
    ensures before == Board(["Go", "Rust"], "", IssuesList([GoPinned]), IssuesList([GoOpen, RustOpen]))
    ensures after == Board(["Go", "Rust"], "Go", IssuesList([GoPinned]), IssuesList([GoOpen]))
  {
    GoAndRustPartition();
    GoAndRustCategories();
    GoSelection();
    var b := new IssueBoard();
    b.OnSnapshot(Some([GoPinned, GoOpen, RustOpen]));
    before := b.View(false, None);
    b.FilterByCategory("Go");
    after := b.View(false, None);
  }
}
