/**
 * saiga_backend's grid cell: an optional character with its colours and
 * style flags, the default blank cell, and `apply_template`, which copies
 * the style of a template cell and keeps the character.
 */
module GridCell {
  import opened Common

  /** The named colours a cell can carry; only the two defaults are distinguished here. */
  datatype NamedColor = Foreground | Background | OtherNamed(index: nat)

  /** A colour: a named one, or any other colour by an opaque code. */
  datatype Color = Named(name: NamedColor) | Other(code: nat)

  datatype Cell = Cell(character: Option<char>, background: Color, foreground: Color, italic: bool, bold: bool)

  /** `Cell::default`: no character, the default colours, no style. */
  const DEFAULT: Cell := Cell(None, Named(Background), Named(Foreground), false, false)

  /** Two cells carry the same style: colours and flags. */
  predicate SameStyle(a: Cell, b: Cell)
  {
    a.background == b.background && a.foreground == b.foreground && a.italic == b.italic && a.bold == b.bold
  }

  /**
   * `apply_template`: the cell takes the template's background,
   * foreground, italic and bold, and keeps its own character.
   */
  function ApplyTemplate(cell: Cell, template: Cell): (r: Cell)
    ensures SameStyle(r, template) && r.character == cell.character
  {
    cell.(background := template.background, foreground := template.foreground,
          italic := template.italic, bold := template.bold)
  }

  /** A cell is determined by its character and its style. */
  lemma CellExtensionality(a: Cell, b: Cell)
    requires SameStyle(a, b) && a.character == b.character
    ensures a == b
  {
  }

  /** Applying a template twice is applying it once, and the default template leaves a blank cell blank. */
  lemma ApplyTemplateIdempotent(cell: Cell, template: Cell)
    ensures ApplyTemplate(ApplyTemplate(cell, template), template) == ApplyTemplate(cell, template)
    ensures ApplyTemplate(DEFAULT, DEFAULT) == DEFAULT
  {
    CellExtensionality(ApplyTemplate(ApplyTemplate(cell, template), template), ApplyTemplate(cell, template));
  }

  /** A template with the cell's own style changes nothing. */
  lemma ApplyOwnStyle(cell: Cell, template: Cell)
    requires SameStyle(cell, template)
    ensures ApplyTemplate(cell, template) == cell
  {
    CellExtensionality(ApplyTemplate(cell, template), cell);
  }
}
