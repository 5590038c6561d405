/**
 * The detail page of one project: after the loading and error guards it
 * assembles the tabs (two issue tabs unless issues are hidden by configuration,
 * then the README and contributing-guidelines tabs) and renders them only when
 * the project record is present.
 */
module ProjectPage {
  import opened Wrappers
  import opened Synergy

  /** One project's detail payload; the other fields the project card shows are passed through unread. */
  datatype ProjectData = ProjectData(
    name: string,
    issues: Option<seq<Issue>>,
    pinnedIssues: Option<seq<Issue>>,
    readme: Option<string>,
    contributingGuidelines: Option<string>)

  /** A tab: its label (`title`, since `label` is a Dafny keyword) and what it shows; the shared tab style is left out. */
  datatype Tab = Tab(title: string, children: Content)

  datatype PageView =
    | Progress
    | ErrorPanel(error: ApiError)
    | Nothing
    | Details(project: ProjectData, tabs: seq<Tab>)

  const PinnedIssuesLabel := "Pinned Issues"
  const AllIssuesLabel := "All Issues"
  const ReadmeLabel := "README"
  const ContributingLabel := "Contributing Guidelines"

  const NoPinnedIssuesMessage := "No Pinned Issues found for this project."
  const NoOpenIssuesMessage := "No Open Issues found for this project."
  const NoReadmeMessage := "README file not found."
  const NoGuidelinesMessage := "No contribution guideline found."

  /** An issue tab lists the collection exactly when it is present and non-empty; otherwise it shows its message. */
  function IssuesComponent(issues: Option<seq<Issue>>, message: string): (c: Content)
    ensures c.IssuesList? <==> TruthyLength(issues)
    ensures c.IssuesList? ==> Some(c.issues) == issues && c.issues != []
    ensures !c.IssuesList? ==> c == Paragraph(message)
  {
    if issues.Some? && |issues.value| != 0 then IssuesList(issues.value) else Paragraph(message)
  }

  /** A markdown tab renders the text exactly when it is present and not ""; otherwise it shows its message. */
  function MarkdownComponent(content: Option<string>, message: string): (c: Content)
    ensures c.Markdown? <==> TruthyText(content)
    ensures c.Markdown? ==> Some(c.content) == content && c.content != ""
    ensures !c.Markdown? ==> c == Paragraph(message)
  {
    if content.Some? && content.value != "" then Markdown(content.value) else Paragraph(message)
  }

  /** `projectData?.pinnedIssues`. */
  function PinnedIssuesOf(projectData: Option<ProjectData>): Option<seq<Issue>>
  {
    if projectData.Some? then projectData.value.pinnedIssues else None
  }

  /** `projectData?.issues`. */
  function IssuesOf(projectData: Option<ProjectData>): Option<seq<Issue>>
  {
    if projectData.Some? then projectData.value.issues else None
  }

  /** `projectData?.readme`. */
  function ReadmeOf(projectData: Option<ProjectData>): Option<string>
  {
    if projectData.Some? then projectData.value.readme else None
  }

  /** `projectData?.contributingGuidelines`. */
  function GuidelinesOf(projectData: Option<ProjectData>): Option<string>
  {
    if projectData.Some? then projectData.value.contributingGuidelines else None
  }

  /** `issueTabs`: the pinned issues, then all open issues, each as the record gives them. */
  function IssueTabs(projectData: Option<ProjectData>): (tabs: seq<Tab>)
    ensures Labels(tabs) == [PinnedIssuesLabel, AllIssuesLabel]
    ensures var pinned := PinnedIssuesOf(projectData);
      && (TruthyLength(pinned) ==> tabs[0].children == IssuesList(pinned.value))
      && (!TruthyLength(pinned) ==> tabs[0].children == Paragraph(NoPinnedIssuesMessage))
    ensures var open := IssuesOf(projectData);
      && (TruthyLength(open) ==> tabs[1].children == IssuesList(open.value))
      && (!TruthyLength(open) ==> tabs[1].children == Paragraph(NoOpenIssuesMessage))
  {
    [ Tab(PinnedIssuesLabel, IssuesComponent(PinnedIssuesOf(projectData), NoPinnedIssuesMessage)),
      Tab(AllIssuesLabel, IssuesComponent(IssuesOf(projectData), NoOpenIssuesMessage)) ]
  }

  /** `otherTabs`: the README, then the contributing guidelines. */
  function OtherTabs(projectData: Option<ProjectData>): (tabs: seq<Tab>)
    ensures Labels(tabs) == [ReadmeLabel, ContributingLabel]
    ensures var readme := ReadmeOf(projectData);
      && (TruthyText(readme) ==> tabs[0].children == Markdown(readme.value))
      && (!TruthyText(readme) ==> tabs[0].children == Paragraph(NoReadmeMessage))
    ensures var guidelines := GuidelinesOf(projectData);
      && (TruthyText(guidelines) ==> tabs[1].children == Markdown(guidelines.value))
      && (!TruthyText(guidelines) ==> tabs[1].children == Paragraph(NoGuidelinesMessage))
  {
    [ Tab(ReadmeLabel, MarkdownComponent(ReadmeOf(projectData), NoReadmeMessage)),
      Tab(ContributingLabel, MarkdownComponent(GuidelinesOf(projectData), NoGuidelinesMessage)) ]
  }

  function Labels(tabs: seq<Tab>): seq<string>
  {
    seq(|tabs|, k requires 0 <= k < |tabs| => tabs[k].title)
  }

  /**
   * `allTabs`: the issue tabs come first unless `hideIssues` is truthy, and the
   * README and guidelines tabs always close the sequence.
   */
  function AllTabs(hideIssues: Option<bool>, projectData: Option<ProjectData>): (tabs: seq<Tab>)
    ensures TruthyFlag(hideIssues) ==> Labels(tabs) == [ReadmeLabel, ContributingLabel]
    ensures !TruthyFlag(hideIssues) ==> Labels(tabs) == [PinnedIssuesLabel, AllIssuesLabel, ReadmeLabel, ContributingLabel]
    ensures tabs[|tabs| - 2..] == OtherTabs(projectData)
    ensures !TruthyFlag(hideIssues) ==> tabs[..2] == IssueTabs(projectData)
  {
    (if TruthyFlag(hideIssues) then [] else IssueTabs(projectData)) + OtherTabs(projectData)
  }

  /**
   * The page: the progress indicator while loading (even with an error), else the
   * error panel, else nothing without a project record, else its details and tabs.
   */
  function Render(hideIssues: Option<bool>, fetch: Fetch<ProjectData>): (v: PageView)
    ensures fetch.loading ==> v == Progress
    ensures !fetch.loading && fetch.error.Some? ==> v == ErrorPanel(fetch.error.value)
    ensures !fetch.loading && fetch.error.None? && fetch.value.None? ==> v == Nothing
    ensures v.Details? <==> !fetch.loading && fetch.error.None? && fetch.value.Some?
    ensures v.Details? ==> v.project == fetch.value.value && v.tabs == AllTabs(hideIssues, fetch.value)
  {
    if fetch.loading then Progress
    else if fetch.error.Some? then ErrorPanel(fetch.error.value)
    else if fetch.value.None? then Nothing
    else Details(fetch.value.value, AllTabs(hideIssues, fetch.value))
  }

  /** Hiding the issues drops exactly the first two tabs, and an absent flag hides nothing. */
  lemma HidingDropsOnlyIssueTabs(projectData: Option<ProjectData>)
    ensures AllTabs(Some(true), projectData) == AllTabs(Some(false), projectData)[2..]
    ensures AllTabs(None, projectData) == AllTabs(Some(false), projectData)
  {
  }

  /**
   * On a rendered page, each tab shows the record's own data or its fixed message:
   * an issue tab lists its collection as given iff it is present and non-empty,
   * a markdown tab renders its text iff it is present and not "".
   */
  lemma RenderedTabsShowRecord(hideIssues: Option<bool>, fetch: Fetch<ProjectData>)
    requires Render(hideIssues, fetch).Details?
    ensures var tabs, pd := Render(hideIssues, fetch).tabs, fetch.value.value;
      && (!TruthyFlag(hideIssues) ==>
            && (TruthyLength(pd.pinnedIssues) ==> tabs[0].children == IssuesList(pd.pinnedIssues.value))
            && (!TruthyLength(pd.pinnedIssues) ==> tabs[0].children == Paragraph(NoPinnedIssuesMessage))
            && (TruthyLength(pd.issues) ==> tabs[1].children == IssuesList(pd.issues.value))
            && (!TruthyLength(pd.issues) ==> tabs[1].children == Paragraph(NoOpenIssuesMessage)))
      && (TruthyText(pd.readme) ==> tabs[|tabs| - 2].children == Markdown(pd.readme.value))
      && (!TruthyText(pd.readme) ==> tabs[|tabs| - 2].children == Paragraph(NoReadmeMessage))
      && (TruthyText(pd.contributingGuidelines) ==> tabs[|tabs| - 1].children == Markdown(pd.contributingGuidelines.value))
      && (!TruthyText(pd.contributingGuidelines) ==> tabs[|tabs| - 1].children == Paragraph(NoGuidelinesMessage))
  {
  }
}
