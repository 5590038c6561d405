# Synergy inner-source views, modelled in Dafny

This project models the two view-controllers of the synergy developer-portal
plugin: the organisation-wide **issue board** and the **project detail page**.
Each takes what the data-fetch hook reports (still loading, an error, the value
so far) and derives presentation state from it.

- The issue board (`Issues`, in `issues.dfy`) is an object with six fields.
  The first is the hook's current value `issuesList`. The five React state
  fields are the baselines `issues` and `pinnedIssues`, the filtered copies
  `filteredIssues` and `filteredPinnedIssues`, and the selected `category`.
- A change of the fetched value is the event `OnSnapshot`. It runs the
  partition loop (`Partition`) and resets both filtered lists to the new
  baselines. A dropdown selection is the event `FilterByCategory`.
- The dropdown shows the list `Categories`, which the loop
  `PrepareCategories` is proved to compute.
- What is shown (progress, error panel or board, and list or placeholder on
  each card) is the function `IssueBoard.View`.
- The project page (`ProjectPage`, in `project_page.dfy`) is a pure function
  `Render`. Its inputs are the optional `hideIssues` flag and the fetch of
  one `ProjectData` record. It assembles the tab sequence `AllTabs` from the
  issue tabs and the markdown tabs.
- `Seqs` (`seqs.dfy`) holds the sequence vocabulary and its lemmas:
  - the array filter;
  - order-preserving sub-sequences and merges;
  - the duplicate-free list that spreading an insertion-ordered set gives.
- `Synergy` (`synergy.dfy`) holds the shared values and JavaScript truthiness:
  - an optional string counts only when present and not `""`;
  - an optional flag counts only when it is `Some(true)`;
  - `xs?.length` counts only when the collection is present and non-empty.

The model keeps these behaviours of the code as written:

- The category list is in first-appearance order, because a JavaScript `Set`
  keeps insertion order.
- A new snapshot does not clear `category`. Only the filtered lists are reset
  to the new baselines, so the dropdown may still show a category that no
  longer filters anything. This ambiguity is kept as written:
  `OnSnapshot` ensures `category == old(category)`.
- The snapshot effect does not depend on `loading`. It runs whenever the
  fetched value changes, so `OnSnapshot` takes no loading flag.
- A present but empty snapshot is truthy (an empty array is truthy in
  JavaScript). It is partitioned, and it also lets a filter selection through.

## Model

| member | source | states |
|---|---|---|
| Seqs.Filter | plugins/synergy/src/components/Issues/Issues.tsx:66-71 | the filter result keeps exactly the input elements that pass the test, never grows, and all its elements pass |
| Seqs.FilterSplit | plugins/synergy/src/components/Issues/Issues.tsx:34-40 | a filter and its complement merge back into the input in order |
| Seqs.Distinct | plugins/synergy/src/components/Issues/Issues.tsx:51-59 | the set spread has no duplicates and holds exactly the elements of its input |
| Issues.Partition | plugins/synergy/src/components/Issues/Issues.tsx:32-40 | the push loop yields exactly the pinned and the unpinned issues of the snapshot, each in snapshot order |
| Issues.PartitionIsExact | plugins/synergy/src/components/Issues/Issues.tsx:32-40 | the split is exhaustive, disjoint and order-preserving: the snapshot is a merge of the two lists, and an issue is on the pinned list iff it is flagged |
| Issues.PartitionCounts | plugins/synergy/src/components/Issues/Issues.tsx:32-40 | the two list sizes add up to the snapshot size and their multisets to the snapshot's |
| Issues.HasLanguage | plugins/synergy/src/components/Issues/Issues.tsx:66-71 | an issue passes the category test iff its language is present and equal to the selection; an absent language never matches |
| Issues.Languages | plugins/synergy/src/components/Issues/Issues.tsx:53-57 | the collected languages are exactly the non-empty languages of some issue |
| Issues.Categories | plugins/synergy/src/components/Issues/Issues.tsx:48-59 | no snapshot gives no categories; otherwise the list has no duplicates and contains a string iff it is the non-empty language of some issue |
| Issues.CategoriesListed | plugins/synergy/src/components/Issues/Issues.tsx:53-57 | a string is a category iff it is non-empty and appears among the issues' languages |
| Issues.PrepareCategories | plugins/synergy/src/components/Issues/Issues.tsx:48-60 | the set-filling loop returns the category list, the empty list for no snapshot |
| Issues.CategoriesInFirstAppearanceOrder | plugins/synergy/src/components/Issues/Issues.tsx:51-59 | categories are listed in the order in which their first issue appears |
| Issues.CategoriesSnoc | plugins/synergy/src/components/Issues/Issues.tsx:53-57 | one more issue appends its language iff it is truthy and not yet listed |
| Issues.Selection | plugins/synergy/src/components/Issues/Issues.tsx:65-77 | an empty selection gives the baseline back; any other keeps exactly the baseline issues whose language equals it |
| Issues.SelectionExact | plugins/synergy/src/components/Issues/Issues.tsx:66-71 | a non-empty selection keeps every copy of each matching issue and none of any other, and with the dropped issues makes up the baseline |
| Issues.SelectionWithinBaseline | plugins/synergy/src/components/Issues/Issues.tsx:66-71 | a selection is an order-preserving sub-sequence of its baseline |
| Issues.SelectionIdempotent | plugins/synergy/src/components/Issues/Issues.tsx:66-71 | applying the same selection to its own result changes nothing |
| Issues.Card | plugins/synergy/src/components/Issues/Issues.tsx:121-137 | a card lists its issues iff there are any, else it shows its fixed message |
| Issues.IssueBoard.constructor | plugins/synergy/src/components/Issues/Issues.tsx:22-28 | all lists start empty, the category starts as "", and no snapshot is held |
| Issues.IssueBoard.OnSnapshot | plugins/synergy/src/components/Issues/Issues.tsx:30-46 | a present snapshot replaces both baselines with its partition and resets both filtered lists to them; the category is kept; an absent snapshot leaves all five fields alone |
| Issues.IssueBoard.FilterByCategory | plugins/synergy/src/components/Issues/Issues.tsx:62-80 | with a snapshot held, the filtered lists become the selection from the unchanged baselines and the category is recorded, even when nothing matches; without one nothing changes |
| Issues.IssueBoard.View | plugins/synergy/src/components/Issues/Issues.tsx:82-137 | loading gives Progress even with an error; otherwise an error gives its panel; otherwise the board shows the categories, the current selection and both cards |
| Issues.BoardListsOnlySnapshotIssues | plugins/synergy/src/components/Issues/Issues.tsx:116-139 | every issue the board lists belongs to the held snapshot and sits on the card its flag names |
| Issues.EmptySnapshotShowsPlaceholders | plugins/synergy/src/components/Issues/Issues.tsx:108-137 | an empty snapshot shows no categories and both placeholder messages |
| Issues.SelectTwice | plugins/synergy/src/components/Issues/Issues.tsx:62-80 | two selections in a row leave the snapshot and baselines alone and leave what the second alone leaves: with a snapshot held, its selection and category; without one, the filtered lists and category unchanged |
| Issues.GoAndRustPartition | plugins/synergy/src/components/Issues/Issues.tsx:32-40 | a pinned Go issue, an open Go issue and an open Rust issue split into one pinned and two open issues |
| Issues.GoAndRustCategories | plugins/synergy/src/components/Issues/Issues.tsx:48-59 | the same issues offer the categories Go, then Rust |
| Issues.GoSelection | plugins/synergy/src/components/Issues/Issues.tsx:65-71 | selecting Go keeps the pinned Go issue and the open Go issue |
| Issues.GoAndRustExample | plugins/synergy/src/components/Issues/Issues.tsx:30-137 | the board over those issues, before and after selecting Go |
| ProjectPage.IssuesComponent | plugins/synergy/src/components/ProjectPage/ProjectPage.tsx:35-37 | an issue tab lists its collection, unchanged, iff it is present and non-empty; otherwise it shows its message |
| ProjectPage.MarkdownComponent | plugins/synergy/src/components/ProjectPage/ProjectPage.tsx:39-45 | a markdown tab renders its text iff it is present and not ""; otherwise it shows its message, so an empty readme gives the message |
| ProjectPage.IssueTabs | plugins/synergy/src/components/ProjectPage/ProjectPage.tsx:70-91 | the labels are Pinned Issues, then All Issues; each lists the record's pinnedIssues or issues when present and non-empty, else its fixed message |
| ProjectPage.OtherTabs | plugins/synergy/src/components/ProjectPage/ProjectPage.tsx:93-114 | the labels are README, then Contributing Guidelines; each renders the record's readme or contributingGuidelines when present and not "", else its fixed message |
| ProjectPage.AllTabs | plugins/synergy/src/components/ProjectPage/ProjectPage.tsx:70-116 | a truthy hideIssues gives exactly the labels README, Contributing Guidelines; false or absent gives Pinned Issues, All Issues, README, Contributing Guidelines; the markdown tabs always close the sequence |
| ProjectPage.Render | plugins/synergy/src/components/ProjectPage/ProjectPage.tsx:64-119 | loading beats error and error beats the page; no record renders nothing; tabs appear only on a rendered page, built from the fetched record |
| ProjectPage.HidingDropsOnlyIssueTabs | plugins/synergy/src/components/ProjectPage/ProjectPage.tsx:116 | hiding the issues drops exactly the first two tabs, and an absent flag hides nothing |
| ProjectPage.RenderedTabsShowRecord | plugins/synergy/src/components/ProjectPage/ProjectPage.tsx:70-114 | each rendered tab shows the record's own collection or text when truthy (the pinned tab uses pinnedIssues, the all-issues tab uses issues, with no re-partitioning), else its fixed message |
| Synergy.TruthyText | plugins/synergy/src/components/Issues/Issues.tsx:54 | an optional string is truthy iff it is neither absent nor ""; the markdown tab applies the same test to its text |
| Synergy.TruthyFlag | plugins/synergy/src/components/ProjectPage/ProjectPage.tsx:116 | an optional flag is truthy iff it is present and true |
| Synergy.TruthyLength | plugins/synergy/src/components/ProjectPage/ProjectPage.tsx:36 | `xs?.length` is truthy iff the collection is present with a non-zero length |

## Left out

- The data-fetch hook and the API calls for issues and for a project are left out, because they are network I/O. Their result enters as `loading`, `error` and the value.
- The configuration lookup of `hideIssues` and the route parameters `owner` and `project` are left out. The flag is a parameter; the two identifiers only key the fetch.
- React's scheduling of state updates and effects is left out. Snapshot arrival and dropdown selection are explicit sequential events. A re-render that reports the same value is not an arrival.
- The rendering of the foreign components is left out: issue list, markdown, project card, dropdown, banners, error panel, tabbed card. Each appears as a datatype constructor holding the data it is given.
- Styling is left out: tab styles, layout, icons, titles, subheaders and link targets.
- The descriptive issue fields stand as `title` and `url`. The project fields that only the project card reads are not modelled.
- The backend's promise that a project's pinned and open issues are disjoint is not modelled, because the page never relies on it.
