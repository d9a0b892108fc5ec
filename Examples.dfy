/**
 * The extractor's and the aggregator's behaviour on the shapes of input the
 * application expects: `Label:value` lines, blank values, lines holding two
 * labels, brand names that differ only in case; and one analysis text
 * worked through the whole parser.
 */
module Examples {
  import opened Wrappers
  import opened Text
  import opened Extractor
  import opened Aggregator
  import opened Lines

  /** A `Label:value` line whose text mentions no label of higher priority
      sets its own field to the value with surrounding whitespace removed. */
  lemma LabelledLine(f: Field, rest: string)
    requires forall g :: Rank(g) < Rank(f) ==> !Contains(Label(f) + rest, Label(g))
    ensures ScanLine(Label(f) + rest) == Some(Assignment(f, Strip(rest)))
  {
    var line := Label(f) + rest;
    ContainsInfix([], Label(f), rest);
    assert [] + Label(f) + rest == line;
    ScanLineFirst(line, f);
    assert line == Name(f) + ":" + rest;
    NameHasNoColon(f);
    LineValueOf(Name(f), rest);
  }

  /** A label followed by nothing but whitespace stores the empty string, not
      the field's sentinel. */
  lemma BlankValue(f: Field, rest: string)
    requires AllSpace(rest)
    requires forall g :: Rank(g) < Rank(f) ==> !Contains(Label(f) + rest, Label(g))
    ensures ScanLine(Label(f) + rest) == Some(Assignment(f, ""))
  {
    LabelledLine(f, rest);
    assert rest == rest + [] + [];
    StripUnique(rest, [], []);
  }

  /** A line holding the MRP label and the basic-details label, and no label
      tried before the MRP, sets the MRP, which is tried first, to the
      stripped text after the line's first colon. */
  lemma MrpBeforeBasicDetails(line: string)
    requires Contains(line, Label(Mrp)) && Contains(line, Label(BasicDetails))
    requires forall g :: Rank(g) < Rank(Mrp) ==> !Contains(line, Label(g))
    ensures ScanLine(line).Some? && ScanLine(line).value.field == Mrp
    ensures ScanLine(line).Some? && ScanLine(line).value.value == LineValue(line)
  {
    ScanLinePriority(line, Mrp);
    var g := ScanLine(line).value.field;
    match g
    case BrandName => case ManufactureDate => case ExpiryDate =>
    case Quantity => case Mrp => case BasicDetails =>
  }

  /** Brand names that differ only in ASCII case name the same product. */
  lemma BrandCase(a: Details, b: Details)
    requires |a.brandName| == |b.brandName|
    requires forall i :: 0 <= i < |a.brandName| ==> LowerChar(a.brandName[i]) == LowerChar(b.brandName[i])
    requires a.quantity == b.quantity && a.mrp == b.mrp
    ensures SameProduct(a, b)
    ensures History([a, b]) == [Product(a, 2)]
  {
    assert Lower(a.brandName) == Lower(b.brandName);
    assert [a, b][..1] == [a];
    assert [a][..0] == [];
    assert History([a]) == [Product(a, 1)];
    assert FirstMatch([Product(a, 1)], b) == Some(0);
  }

  /** Three newline-free lines joined by newlines split back into those
      three lines. */
  lemma SplitThree(l0: string, l1: string, l2: string)
    requires '\n' !in l0 && '\n' !in l1 && '\n' !in l2
    ensures Split(l0 + "\n" + l1 + "\n" + l2, '\n') == [l0, l1, l2]
  {
    JoinCons(l1, [l2], '\n');
    JoinCons(l0, [l1, l2], '\n');
    assert [l0] + [l1, l2] == [l0, l1, l2];
    assert [l1] + [l2] == [l1, l2];
    assert l0 + "\n" + l1 + "\n" + l2 == l0 + "\n" + (l1 + "\n" + l2);
    SplitJoin([l0, l1, l2], '\n');
  }

  /** The worked example: three `Label: value` lines. */
  const BrandLine := "Brand Name: Acme"
  const QuantityLine := "Quantity: 500g"
  const MrpLine := "MRP: 99"
  const ExampleText := "Brand Name: Acme\nQuantity: 500g\nMRP: 99"

  lemma ExampleTextLines()
    ensures ExampleText == BrandLine + "\n" + QuantityLine + "\n" + MrpLine
  {
  }

  lemma ExampleLinesSingle()
    ensures '\n' !in BrandLine && '\n' !in QuantityLine && '\n' !in MrpLine
  {
  }

  /** The analysis text of the worked example splits into its three lines. */
  lemma ExampleSplit()
    ensures Split(ExampleText, '\n') == [BrandLine, QuantityLine, MrpLine]
  {
    ExampleTextLines();
    ExampleLinesSingle();
    SplitThree(BrandLine, QuantityLine, MrpLine);
  }

  /** The first character of each label. */
  lemma LabelInitials()
    ensures Label(BrandName)[0] == 'B' && Label(ManufactureDate)[0] == 'D'
    ensures Label(ExpiryDate)[0] == 'D' && Label(Quantity)[0] == 'Q'
  {
  }

  /** A `Label:value` line that lacks the first character of every label
      tried before its own sets its own field to the stripped value. This
      serves Brand Name, Date of Manufacturing, Quantity and MRP lines: the
      Date of Expiry label itself holds 'D', which begins the Date of
      Manufacturing label, and the Basic Details label holds 'B', which begins
      the Brand Name label, so for those two fields the precondition cannot
      hold. */
  lemma LabelledLineWithout(f: Field, rest: string)
    requires forall g :: Rank(g) < Rank(f) ==> Label(g)[0] !in Label(f) + rest
    ensures ScanLine(Label(f) + rest) == Some(Assignment(f, Strip(rest)))
  {
    forall g | Rank(g) < Rank(f)
      ensures !Contains(Label(f) + rest, Label(g))
    {
      MissingChar(Label(f) + rest, Label(g), Label(g)[0]);
    }
    LabelledLine(f, rest);
  }

  lemma BrandText()
    ensures Label(BrandName) + " Acme" == BrandLine
    ensures Strip(" Acme") == "Acme"
  {
    assert " Acme" == " " + "Acme" + [];
    StripUnique(" ", "Acme", []);
  }

  lemma QuantityText()
    ensures Label(Quantity) + " 500g" == QuantityLine
    ensures 'B' !in QuantityLine && 'D' !in QuantityLine
    ensures Strip(" 500g") == "500g"
  {
    assert " 500g" == " " + "500g" + [];
    StripUnique(" ", "500g", []);
  }

  lemma MrpText()
    ensures Label(Mrp) + " 99" == MrpLine
    ensures 'B' !in MrpLine && 'D' !in MrpLine && 'Q' !in MrpLine
    ensures Strip(" 99") == "99"
  {
    assert " 99" == " " + "99" + [];
    StripUnique(" ", "99", []);
  }

  /** Each line of the worked example sets its own field to the stripped
      value. */
  lemma ExampleBrandLine()
    ensures ScanLine(BrandLine) == Some(Assignment(BrandName, "Acme"))
  {
    BrandText();
    LabelledLine(BrandName, " Acme");
  }

  lemma ExampleQuantityLine()
    ensures ScanLine(QuantityLine) == Some(Assignment(Quantity, "500g"))
  {
    LabelInitials();
    QuantityText();
    LabelledLineWithout(Quantity, " 500g");
  }

  lemma ExampleMrpLine()
    ensures ScanLine(MrpLine) == Some(Assignment(Mrp, "99"))
  {
    LabelInitials();
    MrpText();
    forall g | Rank(g) < Rank(Mrp)
      ensures Label(g)[0] !in Label(Mrp) + " 99"
    {
      match g
      case BrandName => case ManufactureDate => case ExpiryDate => case Quantity =>
    }
    LabelledLineWithout(Mrp, " 99");
  }

  /** Three lines scan to their three assignments, in order. */
  lemma ScanThree(l0: string, l1: string, l2: string)
    ensures ScanLines([l0, l1, l2]) == [ScanLine(l0), ScanLine(l1), ScanLine(l2)]
  {
    var r := ScanLines([l0, l1, l2]);
    assert r[0] == ScanLine(l0) && r[1] == ScanLine(l1) && r[2] == ScanLine(l2);
  }

  /** Brand, quantity and MRP assignments, in that order, over the sentinels. */
  lemma AssembleThree(brand: string, quantity: string, mrp: string)
    ensures Assemble([Some(Assignment(BrandName, brand)), Some(Assignment(Quantity, quantity)), Some(Assignment(Mrp, mrp))])
         == Details(brand, "Not specified", "Not specified", quantity, mrp, "Not provided")
  {
    var a0, a1, a2 := Some(Assignment(BrandName, brand)), Some(Assignment(Quantity, quantity)), Some(Assignment(Mrp, mrp));
    assert [a0][..0] == [];
    assert Assemble([a0]) == Defaults.(brandName := brand);
    assert [a0, a1][..1] == [a0];
    assert Assemble([a0, a1]) == Defaults.(brandName := brand, quantity := quantity);
    assert [a0, a1, a2][..2] == [a0, a1];
    assert Assemble([a0, a1, a2]) == Defaults.(brandName := brand, quantity := quantity, mrp := mrp);
  }

  /** The worked example end to end: brand name, quantity and MRP are read
      from their lines, and the two dates and the basic details keep their
      sentinels. */
  lemma WorkedExample(text: string)
    requires text == ExampleText
    ensures Parse(Some(text))
         == Details("Acme", "Not specified", "Not specified", "500g", "99", "Not provided")
  {
    ExampleSplit();
    ExampleTextLines();
    assert text != "" by {
      assert |text| >= |BrandLine|;
      assert |BrandLine| > 0;
    }
    var lines := [BrandLine, QuantityLine, MrpLine];
    assert Split(text, '\n') == lines;
    ExampleBrandLine();
    ExampleQuantityLine();
    ExampleMrpLine();
    ScanThree(BrandLine, QuantityLine, MrpLine);
    AssembleThree("Acme", "500g", "99");
  }
}
