/** A configuration whose second .config lacks a line of the first (docs/kconfiglib.py). */
module KconfLostLines {
  import opened Basics
  import opened KconfExpr
  import opened Kconfig
  import opened KconfFrame
  import opened KconfCache
  import opened KconfChoice
  import opened KconfText
  import opened KconfFile
  import opened KconfRoundTrip

  /** An optional bool choice of A, which has no prompt, and B, which can always be seen. */
  function Sample(nums: Numerals): Config {
    Config(map["A" := Symbol(Bool, [], [], EStr("n"), [], Some(0), None, 0),
               "B" := Symbol(Bool, [None], [], EStr("n"), [], Some(0), None, 0)],
           map[0 := Choice(Bool, [None], [], ["A", "B"], true, 0)], nums)
  }

  /** What assigning "y" to A leaves. */
  const USER: User := User(map["A" := "y"], map[0 := "A"], map[0 := Y])

  const ORDER: seq<Sym> := ["A", "B"]

  lemma SampleIsAcyclic(nums: Numerals)
    ensures Acyclic(Sample(nums)) && UserValid(Sample(nums), USER)
    ensures ModulesOff(Sample(nums)) && ChoicesAreTri(Sample(nums))
    ensures SetUser(Sample(nums), NOBODY, "A", "y") == USER
  {
    var k := Sample(nums);
    assert ChoiceSyms(k.choices[0]) == {};
    forall s | s in k.syms
      ensures SymbolOk(k, s)
    {
      assert Refs(k, k.syms[s]) == {};
    }
    assert ChoiceOk(k, 0) by {
      assert Member(k, "A", 0) && Member(k, "B", 0);
    }
  }

  /** A cannot be seen, B can; the choice is in mode "y" with nothing selected. */
  lemma SampleChoice(nums: Numerals)
    ensures Acyclic(Sample(nums))
    ensures var k := Sample(nums);
            VisOf(k, USER, "A") == N && VisOf(k, USER, "B") == Y && Mode(k, USER, 0) == Y && SelectionOf(k, USER, 0) == None
  {
    SampleIsAcyclic(nums);
    var k := Sample(nums);
    var e := FullEnv(k, USER);
    var always: seq<Cond> := [None];
    assert always[..0] == [];
    assert PromptVis(e, always) == Y;
    assert ChoiceVis(e, k.choices[0]) == Y;
    assert Visible(k, e, "A") == N;
  }

  lemma SampleOutcomes(nums: Numerals)
    ensures Acyclic(Sample(nums))
    ensures Recompute(Sample(nums), USER, "A") == Outcome("n", false)
    ensures Recompute(Sample(nums), USER, "B") == Outcome("n", true)
  {
    SampleIsAcyclic(nums);
    SampleChoice(nums);
    var k := Sample(nums);
    assert Member(k, "A", 0) && Member(k, "B", 0);
    ChoiceValue(k, USER, 0, "A");
    ChoiceValue(k, USER, 0, "B");
  }

  lemma OrderFits(k: Config, out: Outcomes)
    requires k.syms.Keys == {"A", "B"} == out.Keys && k.syms["B"].typ == Bool
    requires out["A"] == Outcome("n", false) && out["B"] == Outcome("n", true)
    ensures FileOrder(k, out, ORDER) && Expressible(k, out, ORDER)
  {
    assert ORDER[0] == "A" && ORDER[1] == "B";
    assert "B"[0] == 'B' && IsWord('B') && WordName("B");
  }

  lemma SampleFits(nums: Numerals)
    ensures Acyclic(Sample(nums))
    ensures var k := Sample(nums);
            FileOrder(k, AllOutcomes(k, USER), ORDER) && Expressible(k, AllOutcomes(k, USER), ORDER)
  {
    SampleOutcomes(nums);
    OrderFits(Sample(nums), AllOutcomes(Sample(nums), USER));
  }

  lemma SampleLoses(nums: Numerals)
    ensures Acyclic(Sample(nums)) && "B" in LostSyms(Sample(nums), USER)
  {
    SampleChoice(nums);
    assert Dangling(Sample(nums), USER, 0);
    assert Lost(Sample(nums), USER, "B");
  }

  /** Everything the round trip asks for holds, and the file written after reloading differs. */
  lemma SecondFileDiffers(nums: Numerals)
    ensures var k := Sample(nums);
            && Acyclic(k) && UserValid(k, USER) && ModulesOff(k) && ChoicesAreTri(k)
            && FileOrder(k, AllOutcomes(k, USER), ORDER) && Expressible(k, AllOutcomes(k, USER), ORDER)
            && var first := ConfLines(k, AllOutcomes(k, USER), ORDER, |ORDER|);
               var r := Load(k, NOBODY, Text(first));
               r.Some? && ConfLines(k, AllOutcomes(k, r.value), ORDER, |ORDER|) != first
  {
    SampleIsAcyclic(nums);
    SampleFits(nums);
    SampleLoses(nums);
    SecondFileIsSame(Sample(nums), USER, ORDER);
  }
}
