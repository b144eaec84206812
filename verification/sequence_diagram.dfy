/**
 * The structural sequence-diagram generator: for every top-level function of
 * every parsed source file, every call expression among the function's
 * descendants whose callee expression has a name becomes one arrow from the
 * function to that name.
 *
 * The TypeScript parser is not modelled: each function is given with its
 * descendants in the order the parser walks them, and each call expression
 * with the two facts the generator asks of it (does its callee expression
 * have a name, and what is the text of that expression's last child).
 */
module SequenceDiagram {
  import opened Wrappers
  import opened JsString
  import opened VirtualProject
  import Mermaid

  /** A descendant node of a function: a call expression, or any other kind of node. */
  datatype Descendant =
    | CallExpression(calleeHasName: bool, lastChildText: Option<string>)
    | OtherNode

  /** A top-level function declaration; `export default function () {}` has no name. */
  datatype FunctionDecl = FunctionDecl(name: Option<string>, descendants: seq<Descendant>)

  /** What the parser yields for one source file of the project. */
  datatype SequenceSourceFile = SequenceSourceFile(functions: seq<FunctionDecl>)

  /** One arrow of the diagram: the calling function and the called name. */
  datatype Arrow = Arrow(caller: string, callee: string)

  /** A descendant yields an arrow: a call whose callee has a name with a non-empty last child. */
  predicate Qualifies(d: Descendant)
  {
    d.CallExpression? && d.calleeHasName && d.lastChildText.Some? && d.lastChildText.value != ""
  }

  /** The line of one arrow: from the caller to the callee, ending with its line break. */
  function RenderArrow(a: Arrow): (r: string)
    ensures StartsWith(r, "  " + a.caller + "->>" + a.callee)
    ensures r[|r| - 1] == '\n'
  {
    "  " + a.caller + "->>" + a.callee + ": Call " + a.callee + "\n"
  }

  function RenderedArrows(arrows: seq<Arrow>): (texts: seq<string>)
    ensures |texts| == |arrows|
  {
    seq(|arrows|, i requires 0 <= i < |arrows| => RenderArrow(arrows[i]))
  }

  /** The text of a sequence of arrows: each arrow's line in turn. */
  function ArrowsText(arrows: seq<Arrow>): string
  {
    Concat(RenderedArrows(arrows))
  }

  /** The arrows one function contributes, in the order its descendants are walked. */
  function FunctionArrows(caller: string, ds: seq<Descendant>): (arrows: seq<Arrow>)
    ensures |arrows| <= |ds|
  {
    if ds == [] then []
    else
      var d := ds[|ds| - 1];
      FunctionArrows(caller, ds[..|ds| - 1]) + (if Qualifies(d) then [Arrow(caller, d.lastChildText.value)] else [])
  }

  function FunctionsArrows(functions: seq<FunctionDecl>): seq<Arrow>
  {
    if functions == [] then []
    else
      var f := functions[|functions| - 1];
      FunctionsArrows(functions[..|functions| - 1]) + FunctionArrows(TemplateText(f.name), f.descendants)
  }

  /** The arrows of one source file: every function's arrows, in declaration order. */
  function FileArrows(file: SequenceSourceFile): seq<Arrow>
  {
    FunctionsArrows(file.functions)
  }

  function AllArrows(files: seq<SequenceSourceFile>): seq<Arrow>
  {
    if files == [] then [] else AllArrows(files[..|files| - 1]) + FileArrows(files[|files| - 1])
  }

  /** The diagram text the generator returns for the parsed files. */
  function SequenceDiagramText(files: seq<SequenceSourceFile>): (r: string)
    ensures StartsWith(r, Mermaid.SequenceKeyword + "\n")
  {
    Mermaid.SequenceKeyword + "\n" + ArrowsText(AllArrows(files))
  }

  // ---------------------------------------------------------------------
  // The generator's loops

  lemma ArrowsTextAppend(a: seq<Arrow>, b: seq<Arrow>)
    ensures ArrowsText(a + b) == ArrowsText(a) + ArrowsText(b)
  {
    assert RenderedArrows(a + b) == RenderedArrows(a) + RenderedArrows(b);
    ConcatAppend(RenderedArrows(a), RenderedArrows(b));
  }

  lemma ArrowsTextSnoc(a: seq<Arrow>, arrow: Arrow)
    ensures ArrowsText(a + [arrow]) == ArrowsText(a) + RenderArrow(arrow)
  {
    ArrowsTextAppend(a, [arrow]);
    assert RenderedArrows([arrow]) == [RenderArrow(arrow)];
    ConcatSingle(RenderArrow(arrow));
  }

  lemma FunctionArrowsSnoc(caller: string, ds: seq<Descendant>, k: nat)
    requires k < |ds|
    ensures FunctionArrows(caller, ds[..k + 1])
            == FunctionArrows(caller, ds[..k])
               + (if Qualifies(ds[k]) then [Arrow(caller, ds[k].lastChildText.value)] else [])
  {
    assert ds[..k + 1][..k] == ds[..k];
  }

  lemma FunctionsArrowsSnoc(functions: seq<FunctionDecl>, j: nat)
    requires j < |functions|
    ensures FunctionsArrows(functions[..j + 1])
            == FunctionsArrows(functions[..j]) + FunctionArrows(TemplateText(functions[j].name), functions[j].descendants)
  {
    assert functions[..j + 1][..j] == functions[..j];
  }

  /** The arrows of one function: a walk over its descendants. */
  method EmitFunction(f: FunctionDecl) returns (code: string)
    ensures code == ArrowsText(FunctionArrows(TemplateText(f.name), f.descendants))
  {
    var functionName := TemplateText(f.name);
    code := "";
    assert ArrowsText([]) == Concat([]);
    var k := 0;
    while k < |f.descendants|
      invariant 0 <= k <= |f.descendants|
      invariant code == ArrowsText(FunctionArrows(functionName, f.descendants[..k]))
    {
      var d := f.descendants[k];
      ghost var prev := FunctionArrows(functionName, f.descendants[..k]);
      FunctionArrowsSnoc(functionName, f.descendants, k);
      if d.CallExpression? && d.calleeHasName {
        var identifier := d.lastChildText;
        if identifier.Some? && identifier.value != "" {
          ArrowsTextSnoc(prev, Arrow(functionName, identifier.value));
          code := code + RenderArrow(Arrow(functionName, identifier.value));
        } else {
          assert prev + [] == prev;
        }
      } else {
        assert prev + [] == prev;
      }
      k := k + 1;
    }
    assert f.descendants[..k] == f.descendants;
  }

  /** The per-file generator: the arrows of every function of the file, in turn. */
  method GenerateSequenceDiagramFromSourceFile(file: SequenceSourceFile) returns (code: string)
    ensures code == ArrowsText(FileArrows(file))
  {
    code := "";
    assert ArrowsText([]) == Concat([]);
    var j := 0;
    while j < |file.functions|
      invariant 0 <= j <= |file.functions|
      invariant code == ArrowsText(FunctionsArrows(file.functions[..j]))
    {
      var f := file.functions[j];
      var part := EmitFunction(f);
      FunctionsArrowsSnoc(file.functions, j);
      ArrowsTextAppend(FunctionsArrows(file.functions[..j]), FunctionArrows(TemplateText(f.name), f.descendants));
      code := code + part;
      j := j + 1;
    }
    assert file.functions[..j] == file.functions;
  }

  /** The generator's loop over the parsed files. */
  method EmitSequenceDiagram(files: seq<SequenceSourceFile>) returns (code: string)
    ensures code == SequenceDiagramText(files)
  {
    code := Mermaid.SequenceKeyword + "\n";
    ghost var header := code;
    assert ArrowsText([]) == Concat([]);
    assert code == header + ArrowsText(AllArrows(files[..0]));
    var i := 0;
    while i < |files|
      invariant 0 <= i <= |files|
      invariant code == header + ArrowsText(AllArrows(files[..i]))
    {
      var part := GenerateSequenceDiagramFromSourceFile(files[i]);
      AppendFileText(header, files, i);
      code := code + part;
      i := i + 1;
    }
    assert files[..i] == files;
  }

  lemma AppendFileText(header: string, files: seq<SequenceSourceFile>, i: nat)
    requires i < |files|
    ensures header + ArrowsText(AllArrows(files[..i])) + ArrowsText(FileArrows(files[i]))
            == header + ArrowsText(AllArrows(files[..i + 1]))
  {
    assert files[..i + 1][..i] == files[..i];
    ArrowsTextAppend(AllArrows(files[..i]), FileArrows(files[i]));
  }

  /**
   * The generator: the uploads become the virtual project, the project is
   * parsed and the diagram is emitted; a parse failure propagates with its
   * own message, since this generator catches nothing.
   */
  method GenerateSequenceDiagram(uploads: seq<UploadedFile>,
                                 parse: map<string, string> -> Result<seq<SequenceSourceFile>, string>)
    returns (r: Result<string, string>)
    ensures parse(ProjectOf(uploads)).Failure? ==> r == Failure(parse(ProjectOf(uploads)).error)
    ensures parse(ProjectOf(uploads)).Success? ==> r == Success(SequenceDiagramText(parse(ProjectOf(uploads)).value))
  {
    var project := BuildProject(uploads);
    var parsed := parse(project);
    if parsed.Failure? {
      return Failure(parsed.error);
    }
    var code := EmitSequenceDiagram(parsed.value);
    return Success(code);
  }

  // ---------------------------------------------------------------------
  // What the emitted diagram says

  /** The number of descendants that yield an arrow. */
  function QualifyingCount(ds: seq<Descendant>): nat
  {
    if ds == [] then 0 else QualifyingCount(ds[..|ds| - 1]) + (if Qualifies(ds[|ds| - 1]) then 1 else 0)
  }

  /**
   * Every arrow of a function starts at that function and names the callee
   * of one of its qualifying calls.
   */
  lemma {:induction false} FunctionArrowsSound(caller: string, ds: seq<Descendant>)
    ensures forall a :: a in FunctionArrows(caller, ds) ==>
              a.caller == caller && a.callee != ""
              && exists i :: 0 <= i < |ds| && Qualifies(ds[i]) && ds[i].lastChildText.value == a.callee
    decreases |ds|
  {
    if ds != [] {
      var init := ds[..|ds| - 1];
      FunctionArrowsSound(caller, init);
      forall a | a in FunctionArrows(caller, ds)
        ensures a.caller == caller && a.callee != ""
                && exists i :: 0 <= i < |ds| && Qualifies(ds[i]) && ds[i].lastChildText.value == a.callee
      {
        if a in FunctionArrows(caller, init) {
          var i :| 0 <= i < |init| && Qualifies(init[i]) && init[i].lastChildText.value == a.callee;
          assert ds[i] == init[i];
        } else {
          assert Qualifies(ds[|ds| - 1]);
        }
      }
    }
  }

  /** Every qualifying call of a function yields an arrow from the function to the callee's name. */
  lemma {:induction false} FunctionArrowsComplete(caller: string, ds: seq<Descendant>)
    ensures forall i :: 0 <= i < |ds| && Qualifies(ds[i]) ==> Arrow(caller, ds[i].lastChildText.value) in FunctionArrows(caller, ds)
    decreases |ds|
  {
    if ds != [] {
      var init := ds[..|ds| - 1];
      FunctionArrowsComplete(caller, init);
      forall i | 0 <= i < |ds| && Qualifies(ds[i])
        ensures Arrow(caller, ds[i].lastChildText.value) in FunctionArrows(caller, ds)
      {
        if i < |init| {
          assert init[i] == ds[i];
        }
      }
    }
  }

  /** A function yields exactly one arrow per qualifying call: none is dropped and none is doubled. */
  lemma {:induction false} OneArrowPerCall(caller: string, ds: seq<Descendant>)
    ensures |FunctionArrows(caller, ds)| == QualifyingCount(ds)
    decreases |ds|
  {
    if ds != [] {
      OneArrowPerCall(caller, ds[..|ds| - 1]);
    }
  }

  /** The qualifying calls of several functions, counted function by function. */
  function FunctionsQualifying(functions: seq<FunctionDecl>): nat
  {
    if functions == [] then 0
    else FunctionsQualifying(functions[..|functions| - 1]) + QualifyingCount(functions[|functions| - 1].descendants)
  }

  /** The qualifying calls of every function of every file. */
  function TotalQualifying(files: seq<SequenceSourceFile>): nat
  {
    if files == [] then 0 else TotalQualifying(files[..|files| - 1]) + FunctionsQualifying(files[|files| - 1].functions)
  }

  /** A file's fragment has one arrow per qualifying call of its functions. */
  lemma {:induction false} FunctionsArrowCount(functions: seq<FunctionDecl>)
    ensures |FunctionsArrows(functions)| == FunctionsQualifying(functions)
    decreases |functions|
  {
    if functions != [] {
      var f := functions[|functions| - 1];
      FunctionsArrowCount(functions[..|functions| - 1]);
      OneArrowPerCall(TemplateText(f.name), f.descendants);
    }
  }

  /** The whole diagram has one arrow per qualifying call of every function of every file. */
  lemma {:induction false} TotalArrowCount(files: seq<SequenceSourceFile>)
    ensures |AllArrows(files)| == TotalQualifying(files)
    decreases |files|
  {
    if files != [] {
      TotalArrowCount(files[..|files| - 1]);
      FunctionsArrowCount(files[|files| - 1].functions);
    }
  }

  /** Walking the descendants in two stretches gives the arrows of the first stretch, then those of the second. */
  lemma {:induction false} FunctionArrowsAppend(caller: string, a: seq<Descendant>, b: seq<Descendant>)
    ensures FunctionArrows(caller, a + b) == FunctionArrows(caller, a) + FunctionArrows(caller, b)
    decreases |b|
  {
    if b == [] {
      assert a + b == a;
    } else {
      assert (a + b)[..|a + b| - 1] == a + b[..|b| - 1];
      FunctionArrowsAppend(caller, a, b[..|b| - 1]);
    }
  }

  /** Every arrow of a file starts at one of the file's functions (under its printed name). */
  lemma {:induction false} ArrowsStartAtFunctions(functions: seq<FunctionDecl>)
    ensures forall a :: a in FunctionsArrows(functions) ==>
              exists j :: 0 <= j < |functions| && a.caller == TemplateText(functions[j].name)
    decreases |functions|
  {
    if functions != [] {
      var init := functions[..|functions| - 1];
      var f := functions[|functions| - 1];
      ArrowsStartAtFunctions(init);
      forall a | a in FunctionsArrows(functions)
        ensures exists j :: 0 <= j < |functions| && a.caller == TemplateText(functions[j].name)
      {
        if a in FunctionsArrows(init) {
          var j :| 0 <= j < |init| && a.caller == TemplateText(init[j].name);
          assert functions[j] == init[j];
        } else {
          var arrows := FunctionArrows(TemplateText(f.name), f.descendants);
          FunctionArrowsSound(TemplateText(f.name), f.descendants);
          assert a.caller == TemplateText(functions[|functions| - 1].name);
        }
      }
    }
  }

  lemma {:induction false} AllArrowsAppend(a: seq<SequenceSourceFile>, b: seq<SequenceSourceFile>)
    ensures AllArrows(a + b) == AllArrows(a) + AllArrows(b)
    decreases |b|
  {
    if b == [] {
      assert a + b == a;
    } else {
      var init, last := b[..|b| - 1], b[|b| - 1];
      assert (a + b)[..|a + b| - 1] == a + init;
      assert (a + b)[|a + b| - 1] == last;
      AllArrowsAppend(a, init);
      var ab := a + b;
      assert AllArrows(ab) == AllArrows(a + init) + FileArrows(last);
      assert AllArrows(b) == AllArrows(init) + FileArrows(last);
      AppendAssoc(AllArrows(a), AllArrows(init), FileArrows(last), AllArrows(ab), AllArrows(b));
    }
  }

  /** Files are visited independently: the diagram for more files extends the diagram for fewer. */
  lemma DiagramExtends(a: seq<SequenceSourceFile>, b: seq<SequenceSourceFile>)
    ensures SequenceDiagramText(a + b) == SequenceDiagramText(a) + ArrowsText(AllArrows(b))
  {
    AllArrowsAppend(a, b);
    ArrowsTextAppend(AllArrows(a), AllArrows(b));
  }

  /** With no qualifying call anywhere the diagram is the bare header. */
  lemma NoArrowsBareHeader(files: seq<SequenceSourceFile>)
    requires AllArrows(files) == []
    ensures SequenceDiagramText(files) == Mermaid.SequenceKeyword + "\n"
  {
    assert ArrowsText([]) == Concat([]);
  }

  /** The generator's output is always accepted as Mermaid: it begins with `sequenceDiagram`. */
  lemma SequenceDiagramIsMermaid(files: seq<SequenceSourceFile>)
    ensures StartsWith(SequenceDiagramText(files), Mermaid.SequenceKeyword)
    ensures Mermaid.IsMermaidCode(SequenceDiagramText(files))
  {
    var text := SequenceDiagramText(files);
    assert text[..|Mermaid.SequenceKeyword|] == Mermaid.SequenceKeyword;
    Mermaid.KeywordsListed();
    Mermaid.StartsWithKeywordIsMermaid(text, 2);
  }
}
