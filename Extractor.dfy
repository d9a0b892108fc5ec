/**
 * The field extractor of app.py (`parse_product_details`): six fields start
 * at fixed sentinel strings; every line of the analysis text that contains a
 * field label overwrites one field with the stripped text after the line's
 * first colon. Labels are tried in a fixed order, so the earliest label in
 * that order wins for a line, and the last line matching a label wins for
 * that field.
 */
module Extractor {
  import opened Wrappers
  import opened Text

  /** The six fields of a product record, declared in label-priority order. */
  datatype Field = BrandName | ManufactureDate | ExpiryDate | Quantity | Mrp | BasicDetails

  /** Position of a field in the order the labels are tried. */
  function Rank(f: Field): nat {
    match f
    case BrandName => 0
    case ManufactureDate => 1
    case ExpiryDate => 2
    case Quantity => 3
    case Mrp => 4
    case BasicDetails => 5
  }

  /** The field's name as the dictionary key. */
  function Name(f: Field): string {
    match f
    case BrandName => "Brand Name"
    case ManufactureDate => "Date of Manufacturing"
    case ExpiryDate => "Date of Expiry"
    case Quantity => "Quantity"
    case Mrp => "MRP"
    case BasicDetails => "Basic Details"
  }

  /** The literal a line must contain for the field to be set from it: the
      name followed by a colon. */
  function Label(f: Field): string {
    Name(f) + ":"
  }

  lemma NameHasNoColon(f: Field)
    ensures ':' !in Name(f)
  {
    match f
    case BrandName => case ManufactureDate => case ExpiryDate =>
    case Quantity => case Mrp => case BasicDetails =>
  }

  /** The sentinel a field keeps when no line sets it. */
  function Default(f: Field): string {
    match f
    case BrandName => "Not identified"
    case BasicDetails => "Not provided"
    case _ => "Not specified"
  }

  /** The dictionary built by the parser: exactly the six keys, each a string. */
  datatype Details = Details(
    brandName: string,
    manufactureDate: string,
    expiryDate: string,
    quantity: string,
    mrp: string,
    basicDetails: string)

  function Get(d: Details, f: Field): string {
    match f
    case BrandName => d.brandName
    case ManufactureDate => d.manufactureDate
    case ExpiryDate => d.expiryDate
    case Quantity => d.quantity
    case Mrp => d.mrp
    case BasicDetails => d.basicDetails
  }

  /** Overwriting one key of the dictionary. */
  function Set(d: Details, f: Field, v: string): (r: Details)
    ensures Get(r, f) == v
    ensures forall g :: g != f ==> Get(r, g) == Get(d, g)
  {
    match f
    case BrandName => d.(brandName := v)
    case ManufactureDate => d.(manufactureDate := v)
    case ExpiryDate => d.(expiryDate := v)
    case Quantity => d.(quantity := v)
    case Mrp => d.(mrp := v)
    case BasicDetails => d.(basicDetails := v)
  }

  /** The dictionary the parser starts from. */
  const Defaults: Details := Details(
    Default(BrandName), Default(ManufactureDate), Default(ExpiryDate),
    Default(Quantity), Default(Mrp), Default(BasicDetails))

  /** What one line of the analysis text does: set one field to one value. */
  datatype Assignment = Assignment(field: Field, value: string)

  /** A line that contains a label contains a colon, so `split(':', 1)[1]`
      cannot fail on it. */
  lemma LabelColon(line: string, f: Field)
    requires Contains(line, Label(f))
    ensures ':' in line
  {
    assert Label(f)[|Label(f)| - 1] == ':';
    ContainsChar(line, Label(f), ':');
  }

  /** `line.split(':', 1)[1].strip()`. */
  function LineValue(line: string): string
    requires ':' in line
  {
    Strip(AfterFirst(line, ':'))
  }

  /** The value comes from after the line's first colon, which need not be the
      label's own colon, with surrounding whitespace removed. */
  lemma LineValueOf(pre: string, rest: string)
    requires ':' !in pre
    ensures LineValue(pre + ":" + rest) == Strip(rest)
  {
    AfterFirstOf(pre, ':', rest);
  }

  /** The tests of the parser's `if/elif` chain: the field whose label is
      the first, in priority order, that the line contains. */
  function MatchLabel(line: string): (r: Option<Field>)
    ensures r.Some? ==> Contains(line, Label(r.value))
  {
    if Contains(line, Label(BrandName)) then Some(BrandName)
    else if Contains(line, Label(ManufactureDate)) then Some(ManufactureDate)
    else if Contains(line, Label(ExpiryDate)) then Some(ExpiryDate)
    else if Contains(line, Label(Quantity)) then Some(Quantity)
    else if Contains(line, Label(Mrp)) then Some(Mrp)
    else if Contains(line, Label(BasicDetails)) then Some(BasicDetails)
    else None
  }

  /** The body of the parser's loop: a line sets the field its first label
      names to the line's value, and a line without a label sets nothing. */
  function ScanLine(line: string): (r: Option<Assignment>)
    ensures r.Some? ==> Contains(line, Label(r.value.field))
    ensures r.Some? ==> ':' in line && r.value.value == LineValue(line)
  {
    match MatchLabel(line)
    case None => None
    case Some(f) =>
      LabelColon(line, f);
      Some(Assignment(f, LineValue(line)))
  }

  /** Label priority: a line containing the label of `f` sets `f` or a field
      whose label is tried before it, never a later one and never nothing. */
  lemma ScanLinePriority(line: string, f: Field)
    requires Contains(line, Label(f))
    ensures ScanLine(line).Some? && Rank(ScanLine(line).value.field) <= Rank(f)
  {
    assert ScanLine(line).Some? ==> ScanLine(line).value.field == MatchLabel(line).value;
    match f
    case BrandName =>
    case ManufactureDate =>
    case ExpiryDate =>
    case Quantity =>
    case Mrp =>
    case BasicDetails =>
  }

  /** The label tried first among those the line contains decides the field:
      a line containing the label of `f` and no label tried before it sets
      `f` to the line's value. */
  lemma ScanLineFirst(line: string, f: Field)
    requires Contains(line, Label(f))
    requires forall g :: Rank(g) < Rank(f) ==> !Contains(line, Label(g))
    ensures ':' in line
    ensures ScanLine(line) == Some(Assignment(f, LineValue(line)))
  {
    LabelColon(line, f);
    ScanLinePriority(line, f);
    var g := ScanLine(line).value.field;
    assert Rank(g) == Rank(f);
    match f
    case BrandName => case ManufactureDate => case ExpiryDate =>
    case Quantity => case Mrp => case BasicDetails =>
  }

  /** The assignments of a list of lines, one per line, in order. */
  function ScanLines(lines: seq<string>): (r: seq<Option<Assignment>>)
    ensures |r| == |lines|
    ensures forall k :: 0 <= k < |lines| ==> r[k] == ScanLine(lines[k])
  {
    if lines == [] then []
    else ScanLines(lines[..|lines| - 1]) + [ScanLine(lines[|lines| - 1])]
  }

  /** Carrying out one line's assignment on the dictionary. */
  function Assign(d: Details, a: Option<Assignment>): Details
  {
    match a
    case None => d
    case Some(Assignment(f, v)) => Set(d, f, v)
  }

  /** The parser's loop, as a fold of the lines' assignments from the defaults. */
  function Assemble(assignments: seq<Option<Assignment>>): Details
  {
    if assignments == [] then Defaults
    else Assign(Assemble(assignments[..|assignments| - 1]), assignments[|assignments| - 1])
  }

  /** `parse_product_details`: an absent or empty analysis gives the defaults;
      otherwise the text is split on newlines and the lines are folded. */
  function Parse(analysis: Option<string>): Details
  {
    match analysis
    case None => Defaults
    case Some(s) => if s == "" then Defaults else Assemble(ScanLines(Split(s, '\n')))
  }

  /** The parser as the source runs it: a loop over the lines overwriting
      entries of a local dictionary. */
  method ParseProductDetails(analysis: Option<string>) returns (details: Details)
    ensures details == Parse(analysis)
  {
    details := Defaults;
    if analysis.Some? && analysis.value != "" {
      var lines := Split(analysis.value, '\n');
      var i := 0;
      while i < |lines|
        invariant 0 <= i <= |lines|
        invariant details == Assemble(ScanLines(lines[..i]))
      {
        var line := lines[i];
        ghost var before := details;
        if Contains(line, Label(BrandName)) {
          LabelColon(line, BrandName);
          assert ScanLine(line) == Some(Assignment(BrandName, LineValue(line)));
          details := details.(brandName := LineValue(line));
        } else if Contains(line, Label(ManufactureDate)) {
          LabelColon(line, ManufactureDate);
          assert ScanLine(line) == Some(Assignment(ManufactureDate, LineValue(line)));
          details := details.(manufactureDate := LineValue(line));
        } else if Contains(line, Label(ExpiryDate)) {
          LabelColon(line, ExpiryDate);
          assert ScanLine(line) == Some(Assignment(ExpiryDate, LineValue(line)));
          details := details.(expiryDate := LineValue(line));
        } else if Contains(line, Label(Quantity)) {
          LabelColon(line, Quantity);
          assert ScanLine(line) == Some(Assignment(Quantity, LineValue(line)));
          details := details.(quantity := LineValue(line));
        } else if Contains(line, Label(Mrp)) {
          LabelColon(line, Mrp);
          assert ScanLine(line) == Some(Assignment(Mrp, LineValue(line)));
          details := details.(mrp := LineValue(line));
        } else if Contains(line, Label(BasicDetails)) {
          LabelColon(line, BasicDetails);
          assert ScanLine(line) == Some(Assignment(BasicDetails, LineValue(line)));
          details := details.(basicDetails := LineValue(line));
        } else {
          assert ScanLine(line) == None;
        }
        assert details == Assign(before, ScanLine(line));
        assert lines[..i + 1] == lines[..i] + [line];
        i := i + 1;
      }
      assert lines[..|lines|] == lines;
    }
  }

  /** Last write wins: a field assigned at position i and at no later position
      holds position i's value. */
  lemma {:induction false} AssembleLastWins(assignments: seq<Option<Assignment>>, i: nat, g: Field, v: string)
    requires i < |assignments| && assignments[i] == Some(Assignment(g, v))
    requires forall j :: i < j < |assignments| ==> assignments[j].None? || assignments[j].value.field != g
    ensures Get(Assemble(assignments), g) == v
  {
    var n := |assignments| - 1;
    var init := assignments[..n];
    if i < n {
      assert forall j :: i < j < n ==> init[j] == assignments[j];
      AssembleLastWins(init, i, g, v);
    }
  }

  /** A field that no position assigns keeps its sentinel. */
  lemma {:induction false} AssembleKeepsDefault(assignments: seq<Option<Assignment>>, g: Field)
    requires forall j :: 0 <= j < |assignments| ==> assignments[j].None? || assignments[j].value.field != g
    ensures Get(Assemble(assignments), g) == Default(g)
  {
    if assignments != [] {
      AssembleKeepsDefault(assignments[..|assignments| - 1], g);
    }
  }

  /** Lines without labels leave all six sentinels in place. */
  lemma {:induction false} AssembleNothing(assignments: seq<Option<Assignment>>)
    requires forall j :: 0 <= j < |assignments| ==> assignments[j].None?
    ensures Assemble(assignments) == Defaults
  {
    if assignments != [] {
      AssembleNothing(assignments[..|assignments| - 1]);
    }
  }

  /** Last write wins, for the parser: a field named by line i of the
      analysis and by no later line holds line i's value. */
  lemma ParseLastWins(s: string, i: nat, g: Field)
    requires s != "" && i < |Split(s, '\n')|
    requires ScanLine(Split(s, '\n')[i]).Some? && ScanLine(Split(s, '\n')[i]).value.field == g
    requires forall j :: i < j < |Split(s, '\n')| ==>
               ScanLine(Split(s, '\n')[j]).None? || ScanLine(Split(s, '\n')[j]).value.field != g
    ensures ':' in Split(s, '\n')[i] && Get(Parse(Some(s)), g) == LineValue(Split(s, '\n')[i])
  {
    var lines := Split(s, '\n');
    var scanned := ScanLines(lines);
    AssembleLastWins(scanned, i, g, scanned[i].value.value);
  }

  /** A field that no line of the analysis names keeps its sentinel. */
  lemma ParseKeepsDefault(analysis: Option<string>, g: Field)
    requires analysis.Some? ==>
               forall j :: 0 <= j < |Split(analysis.value, '\n')| ==>
                 ScanLine(Split(analysis.value, '\n')[j]).None? || ScanLine(Split(analysis.value, '\n')[j]).value.field != g
    ensures Get(Parse(analysis), g) == Default(g)
  {
    if analysis.Some? && analysis.value != "" {
      AssembleKeepsDefault(ScanLines(Split(analysis.value, '\n')), g);
    }
  }

  /** An absent or empty analysis gives exactly the six sentinels. */
  lemma ParseNoInput()
    ensures Parse(None) == Defaults && Parse(Some("")) == Defaults
    ensures forall f :: Get(Defaults, f) == Default(f)
  {
  }

  /** The `if analysis:` guard changes nothing for strings: the empty string
      splits into one empty line, which contains no label. */
  lemma ParseGuardRedundant(s: string)
    ensures Parse(Some(s)) == Assemble(ScanLines(Split(s, '\n')))
  {
    if s == "" {
      assert Split(s, '\n') == [""];
      AssembleNothing(ScanLines([""]));
    }
  }
}
