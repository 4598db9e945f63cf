/**
 * The four-step wizard (file selection, bullets, skills, review): the state
 * the panels share and the `current_panel` navigation counter.
 */
module Application {
  import opened Wrappers
  import opened Assoc
  import opened Text
  import opened Records

  /** Number of panels; they are numbered 0 to 3. */
  const PanelCount := 4
  const LastPanel := 3

  /** How many bullets each role must have selected. */
  const DefaultRequirements: Dict<string, int> := [("Nodelink", 5), ("MAMM", 5), ("FactCheckAI", 2), ("Medical Classifier", 1)]

  const StepNames: seq<string> := ["File Selection", "Select Bullets", "Select Skills", "Review & Generate"]
  const ProgressTexts: seq<string> :=
    ["Select files and enter job description", "Choose your best bullet points", "Select skills and categories", "Review and generate resume"]

  /** _go_next: one step forward, only from a panel before the last and only when it validates. */
  function NextPanel(p: int, valid: bool): int
  {
    if p < LastPanel && valid then p + 1 else p
  }

  /** _go_back: one step back from any panel but the first. */
  function PrevPanel(p: int): int
  {
    if p > 0 then p - 1 else p
  }

  /** _validate_current_panel: the verdict of the current panel's own validate(). */
  function PanelVerdict(p: int, verdicts: seq<bool>): bool
    requires |verdicts| == PanelCount
  {
    if 0 <= p < PanelCount then verdicts[p] else true
  }

  /** _on_panel_change: the panel whose load_data runs after arriving at p (none for the first). */
  function PanelToLoad(p: int): Option<nat>
  {
    if 1 <= p <= LastPanel then Some(p) else None
  }

  /** The status-bar text for panel p. */
  function StatusText(p: int): string
    requires 0 <= p < PanelCount
  {
    "Step " + NatToString(p + 1) + " of 4: " + StepNames[p]
  }

  /**
   * Both moves keep the counter within 0..3; forward moves by exactly one
   * only from a panel before the last that validates, back by exactly one
   * only from a panel after the first, and a step back undoes a step forward.
   */
  lemma NavigationSpec(p: int, valid: bool)
    requires 0 <= p <= LastPanel
    ensures 0 <= NextPanel(p, valid) <= LastPanel && 0 <= PrevPanel(p) <= LastPanel
    ensures NextPanel(p, valid) == p + 1 <==> p < LastPanel && valid
    ensures NextPanel(p, valid) != p + 1 ==> NextPanel(p, valid) == p
    ensures PrevPanel(p) == p - 1 <==> p > 0
    ensures PrevPanel(p) != p - 1 ==> PrevPanel(p) == p
    ensures NextPanel(p, valid) != p ==> PrevPanel(NextPanel(p, valid)) == p
    ensures p > 0 ==> NextPanel(PrevPanel(p), true) == p
  {
  }

  class ResumeBuilderApp {
    var currentPanel: int
    var backEnabled: bool
    var nextEnabled: bool
    var status: string
    var progress: string

    var excelPath: Option<string>
    var templatePath: Option<string>
    var jdText: string
    var recs: Dict<string, seq<Rec>>
    var selectedBullets: Dict<string, set<nat>>
    var roleTitles: Dict<string, string>
    var skillsData: Dict<string, seq<string>>
    var selectedSkills: Dict<string, string>
    var selectedCategories: set<string>
    var filteredSkills: Dict<string, seq<string>>
    var selectionRequirements: Dict<string, int>
    var orderedBullets: Dict<string, seq<Rec>>
    var orderedSkills: seq<OrderedSkill>

    /** The navigation widgets agree with the counter, and the counter names a panel. */
    predicate Valid()
      reads this`currentPanel, this`backEnabled, this`nextEnabled, this`status, this`progress
    {
      && 0 <= currentPanel <= LastPanel
      && backEnabled == (currentPanel > 0)
      && nextEnabled == (currentPanel < LastPanel)
      && status == StatusText(currentPanel)
      && progress == ProgressTexts[currentPanel]
    }

    /** A fresh wizard on the first panel; the default files are those found in the working directory. */
    constructor (defaultExcel: Option<string>, defaultTemplate: Option<string>)
      ensures Valid() && currentPanel == 0
      ensures excelPath == defaultExcel && templatePath == defaultTemplate && jdText == ""
      ensures recs == [] && selectedBullets == [] && roleTitles == [] && skillsData == []
      ensures selectedSkills == [] && selectedCategories == {} && filteredSkills == []
      ensures orderedBullets == [] && orderedSkills == []
      ensures selectionRequirements == DefaultRequirements
    {
      currentPanel := 0;
      excelPath := defaultExcel;
      templatePath := defaultTemplate;
      jdText := "";
      recs := [];
      selectedBullets := [];
      roleTitles := [];
      skillsData := [];
      selectedSkills := [];
      selectedCategories := {};
      filteredSkills := [];
      selectionRequirements := DefaultRequirements;
      orderedBullets := [];
      orderedSkills := [];
      new;
      UpdateNavigation();
    }

    /** _update_navigation: button states and status texts recomputed from the counter. */
    method UpdateNavigation()
      requires 0 <= currentPanel <= LastPanel
      modifies this`backEnabled, this`nextEnabled, this`status, this`progress
      ensures Valid()
    {
      backEnabled := currentPanel > 0;
      nextEnabled := currentPanel < LastPanel;
      status := StatusText(currentPanel);
      progress := ProgressTexts[currentPanel];
    }

    /**
     * _go_next, given what each panel's validate() answers: moves on only
     * when not on the last panel and the current panel validates, then
     * reports the panel whose data is loaded.
     */
    method GoNext(verdicts: seq<bool>) returns (loaded: Option<nat>)
      requires Valid() && |verdicts| == PanelCount
      modifies this`currentPanel, this`backEnabled, this`nextEnabled, this`status, this`progress
      ensures Valid()
      ensures currentPanel == NextPanel(old(currentPanel), verdicts[old(currentPanel)])
      ensures loaded == if currentPanel != old(currentPanel) then PanelToLoad(currentPanel) else None
    {
      loaded := None;
      if currentPanel < LastPanel {
        if PanelVerdict(currentPanel, verdicts) {
          currentPanel := currentPanel + 1;
          loaded := PanelToLoad(currentPanel);
          UpdateNavigation();
        }
      }
    }

    /** _go_back: moves back only from a panel after the first, then reports the panel whose data is loaded. */
    method GoBack() returns (loaded: Option<nat>)
      requires Valid()
      modifies this`currentPanel, this`backEnabled, this`nextEnabled, this`status, this`progress
      ensures Valid()
      ensures currentPanel == PrevPanel(old(currentPanel))
      ensures loaded == if currentPanel != old(currentPanel) then PanelToLoad(currentPanel) else None
    {
      loaded := None;
      if currentPanel > 0 {
        currentPanel := currentPanel - 1;
        loaded := PanelToLoad(currentPanel);
        UpdateNavigation();
      }
    }
  }
}
