/** The records the wizard's panels pass around. */
module Records {
  import opened Wrappers

  /**
   * A recommended bullet as the panels use it: its text and its "lines"
   * value, which is None when the sheet has no lines column (the loader
   * stores whole numbers otherwise).
   */
  datatype Rec = Rec(bullet: string, lines: Option<int>)

  /** `lines if isinstance(lines, (int, float)) else 0`, with int() a no-op on whole numbers. */
  function LinesOf(r: Rec): int
  {
    if r.lines.Some? then r.lines.value else 0
  }

  /** One entry of the review's ordered skills: template key, formatted value and its parsed category and skills. */
  datatype OrderedSkill = OrderedSkill(key: string, value: string, category: string, skills: seq<string>)
}
