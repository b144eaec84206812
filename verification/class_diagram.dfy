/**
 * The structural class-diagram generator: every class of every parsed source
 * file becomes a block of the Mermaid `classDiagram` text, its properties
 * (name and type text) first, then its methods, each on its own line.
 *
 * The TypeScript parser is not modelled: what it yields for a project is
 * given as a list of parsed files, each holding its classes in declaration
 * order, and the parse step itself is a function parameter that may fail.
 */
module ClassDiagram {
  import opened Wrappers
  import opened JsString
  import opened VirtualProject
  import Mermaid

  /** A class property: its name and the text of its type. */
  datatype PropertyDecl = PropertyDecl(name: string, typeText: string)

  /** A class declaration; an anonymous class (`export default class {}`) has no name. */
  datatype ClassDecl = ClassDecl(name: Option<string>, properties: seq<PropertyDecl>, methods: seq<string>)

  /** What the parser yields for one source file of the project. */
  datatype ClassSourceFile = ClassSourceFile(classes: seq<ClassDecl>)

  /** One line of the generated diagram. */
  datatype DiagramLine =
    | Header
    | ClassOpen(className: string)
    | PropertyLine(propName: string, typeText: string)
    | MethodLine(methodName: string)
    | ClassClose

  const GenerateFailedMessage: string := "Failed to generate ts-mermaid diagram"

  /** The text of one line; every line ends with its line break. */
  function RenderLine(line: DiagramLine): (r: string)
    ensures r != [] && r[|r| - 1] == '\n'
  {
    match line
    case Header => Mermaid.ClassKeyword + "\n"
    case ClassOpen(n) => "  class " + n + " {\n"
    case PropertyLine(n, t) => "    " + n + ": " + t + "\n"
    case MethodLine(n) => "    " + n + "()\n"
    case ClassClose => "  }\n"
  }

  /** The text of a sequence of lines: each rendered line in turn. */
  function RenderAll(lines: seq<DiagramLine>): string
  {
    if lines == [] then "" else RenderAll(lines[..|lines| - 1]) + RenderLine(lines[|lines| - 1])
  }

  function PropertyLines(props: seq<PropertyDecl>): (lines: seq<DiagramLine>)
    ensures |lines| == |props|
    ensures forall i :: 0 <= i < |props| ==> lines[i] == PropertyLine(props[i].name, props[i].typeText)
  {
    if props == [] then []
    else PropertyLines(props[..|props| - 1]) + [PropertyLine(props[|props| - 1].name, props[|props| - 1].typeText)]
  }

  function MethodLines(methods: seq<string>): (lines: seq<DiagramLine>)
    ensures |lines| == |methods|
    ensures forall i :: 0 <= i < |methods| ==> lines[i] == MethodLine(methods[i])
  {
    if methods == [] then [] else MethodLines(methods[..|methods| - 1]) + [MethodLine(methods[|methods| - 1])]
  }

  /** The block of one class: its opening line, its properties, its methods, its closing brace. */
  function ClassLines(c: ClassDecl): seq<DiagramLine>
  {
    [ClassOpen(TemplateText(c.name))] + PropertyLines(c.properties) + MethodLines(c.methods) + [ClassClose]
  }

  function ClassesLines(classes: seq<ClassDecl>): seq<DiagramLine>
  {
    if classes == [] then [] else ClassesLines(classes[..|classes| - 1]) + ClassLines(classes[|classes| - 1])
  }

  function FilesLines(files: seq<ClassSourceFile>): seq<DiagramLine>
  {
    if files == [] then [] else FilesLines(files[..|files| - 1]) + ClassesLines(files[|files| - 1].classes)
  }

  /** The whole diagram as lines: the header, then every class block of every file, in order. */
  function DiagramLines(files: seq<ClassSourceFile>): seq<DiagramLine>
  {
    [Header] + FilesLines(files)
  }

  /** The diagram text the generator returns for the parsed files. */
  function ClassDiagramText(files: seq<ClassSourceFile>): (r: string)
    ensures StartsWith(r, Mermaid.ClassKeyword + "\n")
  {
    RenderAllAppend([Header], FilesLines(files));
    RenderOne(Header);
    RenderAll(DiagramLines(files))
  }

  /** Every class of every file, in the order the generator visits them. */
  function AllClasses(files: seq<ClassSourceFile>): seq<ClassDecl>
  {
    if files == [] then [] else AllClasses(files[..|files| - 1]) + files[|files| - 1].classes
  }

  // ---------------------------------------------------------------------
  // The generator's loops

  lemma {:induction false} RenderAllAppend(a: seq<DiagramLine>, b: seq<DiagramLine>)
    ensures RenderAll(a + b) == RenderAll(a) + RenderAll(b)
    decreases |b|
  {
    if b == [] {
      assert a + b == a;
    } else {
      var ab, init, last := a + b, b[..|b| - 1], b[|b| - 1];
      assert ab[..|ab| - 1] == a + init;
      assert ab[|ab| - 1] == last;
      RenderAllAppend(a, init);
      RenderAllLast(ab);
      RenderAllLast(b);
      AppendAssoc(RenderAll(a), RenderAll(init), RenderLine(last), RenderAll(ab), RenderAll(b));
    }
  }

  lemma RenderAllLast(lines: seq<DiagramLine>)
    requires lines != []
    ensures RenderAll(lines) == RenderAll(lines[..|lines| - 1]) + RenderLine(lines[|lines| - 1])
  {
  }

  /** Emitting one more line appends its text. */
  lemma RenderAllSnoc(a: seq<DiagramLine>, line: DiagramLine)
    ensures RenderAll(a + [line]) == RenderAll(a) + RenderLine(line)
  {
    assert (a + [line])[..|a|] == a;
  }

  /** The text of one line alone. */
  lemma RenderOne(line: DiagramLine)
    ensures RenderAll([line]) == RenderLine(line)
  {
    RenderAllSnoc([], line);
    assert [] + [line] == [line];
  }

  /** A class block's text: its opening line, its property lines, its method lines, its closing brace. */
  lemma ClassText(c: ClassDecl)
    ensures RenderAll(ClassLines(c))
            == RenderLine(ClassOpen(TemplateText(c.name))) + RenderAll(PropertyLines(c.properties))
               + RenderAll(MethodLines(c.methods)) + RenderLine(ClassClose)
  {
    var open, props, methods := [ClassOpen(TemplateText(c.name))], PropertyLines(c.properties), MethodLines(c.methods);
    RenderAllSnoc(open + props + methods, ClassClose);
    RenderAllAppend(open + props, methods);
    RenderAllAppend(open, props);
    RenderOne(ClassOpen(TemplateText(c.name)));
  }

  lemma PropertyTextSnoc(props: seq<PropertyDecl>, k: nat)
    requires k < |props|
    ensures RenderAll(PropertyLines(props[..k + 1]))
            == RenderAll(PropertyLines(props[..k])) + RenderLine(PropertyLine(props[k].name, props[k].typeText))
  {
    assert props[..k + 1][..k] == props[..k];
    RenderAllSnoc(PropertyLines(props[..k]), PropertyLine(props[k].name, props[k].typeText));
  }

  lemma MethodTextSnoc(methods: seq<string>, k: nat)
    requires k < |methods|
    ensures RenderAll(MethodLines(methods[..k + 1]))
            == RenderAll(MethodLines(methods[..k])) + RenderLine(MethodLine(methods[k]))
  {
    assert methods[..k + 1][..k] == methods[..k];
    RenderAllSnoc(MethodLines(methods[..k]), MethodLine(methods[k]));
  }

  /** The body of the generator's class loop: one block of text per class. */
  method EmitClass(c: ClassDecl) returns (block: string)
    ensures block == RenderAll(ClassLines(c))
  {
    block := RenderLine(ClassOpen(TemplateText(c.name)));
    ghost var open := block;
    assert c.properties[..0] == [];
    var k := 0;
    while k < |c.properties|
      invariant 0 <= k <= |c.properties|
      invariant block == open + RenderAll(PropertyLines(c.properties[..k]))
    {
      var p := c.properties[k];
      PropertyTextSnoc(c.properties, k);
      AppendAssoc(open, RenderAll(PropertyLines(c.properties[..k])), RenderLine(PropertyLine(p.name, p.typeText)),
                  block + RenderLine(PropertyLine(p.name, p.typeText)), RenderAll(PropertyLines(c.properties[..k + 1])));
      block := block + RenderLine(PropertyLine(p.name, p.typeText));
      k := k + 1;
    }
    assert c.properties[..k] == c.properties;
    ghost var head := block;
    assert c.methods[..0] == [];
    k := 0;
    while k < |c.methods|
      invariant 0 <= k <= |c.methods|
      invariant block == head + RenderAll(MethodLines(c.methods[..k]))
    {
      var m := c.methods[k];
      MethodTextSnoc(c.methods, k);
      AppendAssoc(head, RenderAll(MethodLines(c.methods[..k])), RenderLine(MethodLine(m)),
                  block + RenderLine(MethodLine(m)), RenderAll(MethodLines(c.methods[..k + 1])));
      block := block + RenderLine(MethodLine(m));
      k := k + 1;
    }
    assert c.methods[..k] == c.methods;
    block := block + RenderLine(ClassClose);
    ClassText(c);
  }

  /** One more class of a file appends its block to the file's text so far. */
  lemma ClassesTextSnoc(classes: seq<ClassDecl>, j: nat)
    requires j < |classes|
    ensures RenderAll(ClassesLines(classes[..j + 1]))
            == RenderAll(ClassesLines(classes[..j])) + RenderAll(ClassLines(classes[j]))
  {
    assert classes[..j + 1][..j] == classes[..j];
    RenderAllAppend(ClassesLines(classes[..j]), ClassLines(classes[j]));
  }

  /** One more file appends its classes' text to the diagram so far. */
  lemma FilesTextSnoc(files: seq<ClassSourceFile>, i: nat)
    requires i < |files|
    ensures RenderAll([Header] + FilesLines(files[..i + 1]))
            == RenderAll([Header] + FilesLines(files[..i])) + RenderAll(ClassesLines(files[i].classes))
  {
    assert files[..i + 1][..i] == files[..i];
    var done, more := [Header] + FilesLines(files[..i]), ClassesLines(files[i].classes);
    assert [Header] + FilesLines(files[..i + 1]) == done + more;
    RenderAllAppend(done, more);
  }

  /** The generator's loop over the classes of one file. */
  method EmitFileClasses(classes: seq<ClassDecl>) returns (text: string)
    ensures text == RenderAll(ClassesLines(classes))
  {
    text := "";
    assert classes[..0] == [];
    var j := 0;
    while j < |classes|
      invariant 0 <= j <= |classes|
      invariant text == RenderAll(ClassesLines(classes[..j]))
    {
      var block := EmitClass(classes[j]);
      ClassesTextSnoc(classes, j);
      text := text + block;
      j := j + 1;
    }
    assert classes[..j] == classes;
  }

  /** The generator's loop over the parsed files. */
  method EmitClassDiagram(files: seq<ClassSourceFile>) returns (code: string)
    ensures code == ClassDiagramText(files)
  {
    code := RenderLine(Header);
    RenderOne(Header);
    assert files[..0] == [];
    var i := 0;
    while i < |files|
      invariant 0 <= i <= |files|
      invariant code == RenderAll([Header] + FilesLines(files[..i]))
    {
      var text := EmitFileClasses(files[i].classes);
      FilesTextSnoc(files, i);
      code := code + text;
      i := i + 1;
    }
    assert files[..i] == files;
  }

  /**
   * The generator: the uploads become the virtual project, the project is
   * parsed, and the diagram is emitted; any failure along the way surfaces
   * as one fixed message.
   */
  method GenerateClassDiagram(uploads: seq<UploadedFile>,
                              parse: map<string, string> -> Result<seq<ClassSourceFile>, string>)
    returns (r: Result<string, string>)
    ensures parse(ProjectOf(uploads)).Failure? ==> r == Failure(GenerateFailedMessage)
    ensures parse(ProjectOf(uploads)).Success? ==> r == Success(ClassDiagramText(parse(ProjectOf(uploads)).value))
  {
    var project := BuildProject(uploads);
    var parsed := parse(project);
    if parsed.Failure? {
      return Failure(GenerateFailedMessage);
    }
    var code := EmitClassDiagram(parsed.value);
    return Success(code);
  }

  // ---------------------------------------------------------------------
  // What the emitted diagram looks like

  /** Where the scanner of a diagram body stands: between blocks, among a class's properties, or among its methods. */
  datatype Phase = Outside | InProperties | InMethods

  /**
   * A well-formed diagram body: class blocks one after the other, each an
   * opening line, properties, then methods, then a closing brace, with no
   * second header anywhere.
   */
  predicate WellFormedFrom(lines: seq<DiagramLine>, phase: Phase)
    decreases |lines|
  {
    if lines == [] then phase == Outside
    else
      var rest := lines[1..];
      match lines[0]
      case Header => false
      case ClassOpen(_) => phase == Outside && WellFormedFrom(rest, InProperties)
      case PropertyLine(_, _) => phase == InProperties && WellFormedFrom(rest, InProperties)
      case MethodLine(_) => phase != Outside && WellFormedFrom(rest, InMethods)
      case ClassClose => phase != Outside && WellFormedFrom(rest, Outside)
  }

  lemma {:induction false} WellFormedConcat(a: seq<DiagramLine>, b: seq<DiagramLine>, phase: Phase)
    requires WellFormedFrom(a, phase) && WellFormedFrom(b, Outside)
    ensures WellFormedFrom(a + b, phase)
    decreases |a|
  {
    if a == [] {
      assert a + b == b;
    } else {
      assert (a + b)[1..] == a[1..] + b;
      var next := match a[0]
        case ClassOpen(_) => InProperties
        case PropertyLine(_, _) => InProperties
        case MethodLine(_) => InMethods
        case _ => Outside;
      WellFormedConcat(a[1..], b, next);
    }
  }

  lemma {:induction false} MethodsWellFormed(methods: seq<string>)
    ensures WellFormedFrom(MethodLines(methods) + [ClassClose], InMethods)
    ensures WellFormedFrom(MethodLines(methods) + [ClassClose], InProperties)
    decreases |methods|
  {
    var lines := MethodLines(methods) + [ClassClose];
    if methods != [] {
      assert lines[1..] == MethodLines(methods[1..]) + [ClassClose];
      MethodsWellFormed(methods[1..]);
    } else {
      assert lines[1..] == [];
    }
  }

  lemma {:induction false} PropertiesWellFormed(props: seq<PropertyDecl>, methods: seq<string>)
    ensures WellFormedFrom(PropertyLines(props) + (MethodLines(methods) + [ClassClose]), InProperties)
    decreases |props|
  {
    var tail := MethodLines(methods) + [ClassClose];
    if props != [] {
      assert (PropertyLines(props) + tail)[1..] == PropertyLines(props[1..]) + tail;
      PropertiesWellFormed(props[1..], methods);
    } else {
      MethodsWellFormed(methods);
      assert PropertyLines(props) + tail == tail;
    }
  }

  /** One class block is well formed: its properties all come before its methods. */
  lemma ClassBlockWellFormed(c: ClassDecl)
    ensures WellFormedFrom(ClassLines(c), Outside)
  {
    var body := PropertyLines(c.properties) + (MethodLines(c.methods) + [ClassClose]);
    PropertiesWellFormed(c.properties, c.methods);
    assert ClassLines(c) == [ClassOpen(TemplateText(c.name))] + body;
    assert ClassLines(c)[1..] == body;
  }

  lemma {:induction false} ClassesWellFormed(classes: seq<ClassDecl>)
    ensures WellFormedFrom(ClassesLines(classes), Outside)
    decreases |classes|
  {
    if classes != [] {
      ClassesWellFormed(classes[..|classes| - 1]);
      ClassBlockWellFormed(classes[|classes| - 1]);
      WellFormedConcat(ClassesLines(classes[..|classes| - 1]), ClassLines(classes[|classes| - 1]), Outside);
    }
  }

  /** The emitted diagram is the header followed by a well-formed body. */
  lemma {:induction false} DiagramWellFormed(files: seq<ClassSourceFile>)
    ensures DiagramLines(files)[0] == Header
    ensures WellFormedFrom(DiagramLines(files)[1..], Outside)
    decreases |files|
  {
    assert DiagramLines(files)[1..] == FilesLines(files);
    if files != [] {
      DiagramWellFormed(files[..|files| - 1]);
      assert DiagramLines(files[..|files| - 1])[1..] == FilesLines(files[..|files| - 1]);
      ClassesWellFormed(files[|files| - 1].classes);
      WellFormedConcat(FilesLines(files[..|files| - 1]), ClassesLines(files[|files| - 1].classes), Outside);
    }
  }

  /** The class names on the opening lines, in order. */
  function OpenedNames(lines: seq<DiagramLine>): seq<string>
  {
    if lines == [] then []
    else OpenedNames(lines[..|lines| - 1]) + (if lines[|lines| - 1].ClassOpen? then [lines[|lines| - 1].className] else [])
  }

  function NamesOfClasses(classes: seq<ClassDecl>): (names: seq<string>)
    ensures |names| == |classes|
    ensures forall i :: 0 <= i < |classes| ==> names[i] == TemplateText(classes[i].name)
  {
    if classes == [] then [] else NamesOfClasses(classes[..|classes| - 1]) + [TemplateText(classes[|classes| - 1].name)]
  }

  lemma {:induction false} OpenedNamesAppend(a: seq<DiagramLine>, b: seq<DiagramLine>)
    ensures OpenedNames(a + b) == OpenedNames(a) + OpenedNames(b)
    decreases |b|
  {
    if b == [] {
      assert a + b == a;
    } else {
      assert (a + b)[..|a + b| - 1] == a + b[..|b| - 1];
      OpenedNamesAppend(a, b[..|b| - 1]);
    }
  }

  lemma {:induction false} NoOpenAmongMembers(lines: seq<DiagramLine>)
    requires forall i :: 0 <= i < |lines| ==> !lines[i].ClassOpen?
    ensures OpenedNames(lines) == []
    decreases |lines|
  {
    if lines != [] {
      NoOpenAmongMembers(lines[..|lines| - 1]);
    }
  }

  lemma ClassBlockOpensOnce(c: ClassDecl)
    ensures OpenedNames(ClassLines(c)) == [TemplateText(c.name)]
  {
    var members := PropertyLines(c.properties) + MethodLines(c.methods) + [ClassClose];
    NoOpenAmongMembers(members);
    assert ClassLines(c) == [ClassOpen(TemplateText(c.name))] + members;
    OpenedNamesAppend([ClassOpen(TemplateText(c.name))], members);
    assert OpenedNames([ClassOpen(TemplateText(c.name))]) == OpenedNames([]) + [TemplateText(c.name)];
  }

  lemma {:induction false} ClassesOpenInOrder(classes: seq<ClassDecl>)
    ensures OpenedNames(ClassesLines(classes)) == NamesOfClasses(classes)
    decreases |classes|
  {
    if classes != [] {
      var init := classes[..|classes| - 1];
      ClassesOpenInOrder(init);
      OpenedNamesAppend(ClassesLines(init), ClassLines(classes[|classes| - 1]));
      ClassBlockOpensOnce(classes[|classes| - 1]);
    }
  }

  lemma {:induction false} NamesOfClassesAppend(a: seq<ClassDecl>, b: seq<ClassDecl>)
    ensures NamesOfClasses(a + b) == NamesOfClasses(a) + NamesOfClasses(b)
  {
  }

  lemma {:induction false} FilesOpenInOrder(files: seq<ClassSourceFile>)
    ensures OpenedNames(FilesLines(files)) == NamesOfClasses(AllClasses(files))
    decreases |files|
  {
    if files != [] {
      var init := files[..|files| - 1];
      var last := files[|files| - 1].classes;
      FilesOpenInOrder(init);
      OpenedNamesAppend(FilesLines(init), ClassesLines(last));
      ClassesOpenInOrder(last);
      NamesOfClassesAppend(AllClasses(init), last);
    }
  }

  /** Every class of every file gets exactly one block, in visiting order, under its printed name. */
  lemma EveryClassOpensOnce(files: seq<ClassSourceFile>)
    ensures OpenedNames(DiagramLines(files)) == NamesOfClasses(AllClasses(files))
  {
    OpenedNamesAppend([Header], FilesLines(files));
    assert OpenedNames([Header]) == OpenedNames([]) + [];
    FilesOpenInOrder(files);
  }

  /** With no classes at all the diagram is the bare header. */
  lemma NoClassesBareHeader(files: seq<ClassSourceFile>)
    requires AllClasses(files) == []
    ensures ClassDiagramText(files) == Mermaid.ClassKeyword + "\n"
  {
    EmptyFilesNoLines(files);
    assert DiagramLines(files) == [] + [Header];
    RenderAllSnoc([], Header);
  }

  lemma {:induction false} EmptyFilesNoLines(files: seq<ClassSourceFile>)
    requires AllClasses(files) == []
    ensures FilesLines(files) == []
    decreases |files|
  {
    if files != [] {
      EmptyFilesNoLines(files[..|files| - 1]);
      assert files[|files| - 1].classes == [];
    }
  }

  /** The generator's output is always accepted as Mermaid: it begins with `classDiagram`. */
  lemma ClassDiagramIsMermaid(files: seq<ClassSourceFile>)
    ensures StartsWith(ClassDiagramText(files), Mermaid.ClassKeyword)
    ensures Mermaid.IsMermaidCode(ClassDiagramText(files))
  {
    var text, rest := ClassDiagramText(files), RenderAll(FilesLines(files));
    RenderAllAppend([Header], FilesLines(files));
    RenderOne(Header);
    assert text == (Mermaid.ClassKeyword + "\n") + rest;
    StartsWithSelf(Mermaid.ClassKeyword);
    StartsWithExtend(Mermaid.ClassKeyword, Mermaid.ClassKeyword, "\n");
    StartsWithExtend(Mermaid.ClassKeyword + "\n", Mermaid.ClassKeyword, rest);
    Mermaid.KeywordsListed();
    Mermaid.StartsWithKeywordIsMermaid(text, 3);
  }

  /** Files are visited independently: the diagram for more files extends the diagram for fewer. */
  lemma {:induction false} DiagramExtends(a: seq<ClassSourceFile>, b: seq<ClassSourceFile>)
    ensures ClassDiagramText(a + b) == ClassDiagramText(a) + RenderAll(FilesLines(b))
    decreases |b|
  {
    FilesLinesAppend(a, b);
    assert DiagramLines(a + b) == DiagramLines(a) + FilesLines(b);
    RenderAllAppend(DiagramLines(a), FilesLines(b));
  }

  lemma {:induction false} FilesLinesAppend(a: seq<ClassSourceFile>, b: seq<ClassSourceFile>)
    ensures FilesLines(a + b) == FilesLines(a) + FilesLines(b)
    decreases |b|
  {
    if b == [] {
      assert a + b == a;
    } else {
      var ab, init, last := a + b, b[..|b| - 1], b[|b| - 1];
      assert ab[..|ab| - 1] == a + init;
      assert ab[|ab| - 1] == last;
      FilesLinesAppend(a, init);
      FilesLinesLast(ab);
      FilesLinesLast(b);
      AppendAssoc(FilesLines(a), FilesLines(init), ClassesLines(last.classes), FilesLines(ab), FilesLines(b));
    }
  }

  lemma FilesLinesLast(files: seq<ClassSourceFile>)
    requires files != []
    ensures FilesLines(files) == FilesLines(files[..|files| - 1]) + ClassesLines(files[|files| - 1].classes)
  {
  }
}
