/**
 * The analysis service: the prompt it builds for the language model, the
 * token guard in front of every model call, the two-stage pipelines that
 * improve a structurally generated diagram with the model, and the errors
 * each pipeline lets out.
 *
 * The language model is a function parameter from request text to reply, so
 * that what is sent and what comes back are both visible to the proofs;
 * reading uploads from disk, the TypeScript parser and the code-context
 * extractor are function parameters for the same reason.
 */
module AnalyzerService {
  import opened Wrappers
  import opened JsString
  import opened TokenBudget
  import opened VirtualProject
  import Mermaid
  import ClassDiagram
  import SequenceDiagram

  // ---------------------------------------------------------------------
  // Errors and replies

  /** What a pipeline throws, by the exception class the caller sees. */
  datatype ServiceError =
    | BadRequest(message: string)
    | TokenLimitBadRequest(limit: TokenLimitExceeded)
    | InternalServerError(message: string)
    | UnhandledError(message: string)

  /** What one chat-completion request yields: message content (possibly null), no usable choice, or a failure. */
  datatype LlmReply =
    | Reply(content: Option<string>)
    | InvalidResponse
    | LlmError(message: string)

  const ApiFailurePrefix: string := "OpenAI API request failed: "
  const InvalidResponseMessage: string := "Invalid response from OpenAI API"
  const DiagramFailedMessage: string := "Failed to generate diagram"
  const AnswerFailedMessage: string := "Failed to answer question about code"
  const TsDiagramFailedMessage: string := "Failed to generate ts-mermaid diagram"
  const ReadFailurePrefix: string := "Failed to read file: "

  /**
   * One model call: the content of the first choice, empty when null; an
   * unusable reply or a failed request becomes an error with the fixed prefix.
   */
  function GenerateWithOpenAI(llm: string -> LlmReply, request: string): (r: Result<string, string>)
    ensures r.Success? <==> llm(request).Reply?
    ensures r.Success? && llm(request).content.Some? ==> r.value == llm(request).content.value
    ensures r.Success? && llm(request).content.None? ==> r.value == ""
    ensures r.Failure? ==> StartsWith(r.error, ApiFailurePrefix)
  {
    match llm(request)
    case Reply(content) => Success(if content.Some? then content.value else "")
    case InvalidResponse => Failure(ApiFailurePrefix + InvalidResponseMessage)
    case LlmError(message) => Failure(ApiFailurePrefix + message)
  }

  // ---------------------------------------------------------------------
  // The diagram prompt

  const Separator: string := "\n\n-----------------------------------------\n\n"
  const PromptIntroStart: string := "Analyze the following code files and generate a "
  const PromptIntroEnd: string := " using Mermaid syntax.\n\n"
  const SequenceInstruction: string := "Create a sequence diagram showing the interactions between components, functions, or classes. Focus on the flow of method calls and data between entities.\n\n"
  const ClassInstruction: string := "Create a class diagram showing the classes, their properties, methods, and relationships. Include inheritance, associations, and compositions where relevant.\n\n"
  const DependenciesInstruction: string := "Create a dependency graph showing how files or modules depend on each other. Focus on import statements and module relationships.\n\n"
  const FlowchartInstruction: string := "Create a flowchart showing the control flow of the main functions. Focus on decision points, loops, and the logical flow of execution.\n\n"
  const DefaultInstruction: string := "Create a diagram that best represents the structure and relationships in the code.\n\n"
  const OutputRules: string := "Only return a valid Mermaid diagram with no additional text. Use the appropriate Mermaid syntax for the requested diagram type.\n\n"
  const FilesHeader: string := "Here are the code files to analyze:\n\n"

  /** The block one file contributes to the prompt: its name, a blank line, its content. */
  function FileBlock(f: FileContent): string
  {
    "File: " + f.name + "\n\n" + f.content
  }

  function FileBlocks(files: seq<FileContent>): (blocks: seq<string>)
    ensures |blocks| == |files|
  {
    seq(|files|, i requires 0 <= i < |files| => FileBlock(files[i]))
  }

  /** All file blocks, joined by the dashed separator line. */
  function FileInfo(files: seq<FileContent>): string
  {
    Join(FileBlocks(files), Separator)
  }

  /** The instruction for the requested analysis, chosen case-insensitively; anything unknown gets the generic one. */
  function Instruction(analysisType: string): (text: string)
    ensures text in {SequenceInstruction, ClassInstruction, DependenciesInstruction, FlowchartInstruction, DefaultInstruction}
  {
    var kind := ToLower(analysisType);
    if kind == "sequence" then SequenceInstruction
    else if kind == "classdiagram" then ClassInstruction
    else if kind == "dependencies" then DependenciesInstruction
    else if kind == "flowchart" then FlowchartInstruction
    else DefaultInstruction
  }

  /** The diagram prompt: the intro naming the analysis type, the instruction selected for it, the rules, the files. */
  function DiagramPrompt(files: seq<FileContent>, analysisType: string): (p: string)
    ensures Contains(p, Instruction(analysisType))
  {
    var head := PromptIntroStart + analysisType + PromptIntroEnd;
    var tail := OutputRules + FilesHeader + FileInfo(files);
    ContainsMiddle(head, Instruction(analysisType), tail);
    assert head + Instruction(analysisType) + tail
           == PromptIntroStart + analysisType + PromptIntroEnd + Instruction(analysisType) + OutputRules + FilesHeader
              + FileInfo(files);
    PromptIntroStart + analysisType + PromptIntroEnd + Instruction(analysisType) + OutputRules + FilesHeader
    + FileInfo(files)
  }

  /** Every uploaded file reaches the model: its block occurs in the prompt. */
  lemma PromptCarriesEveryFile(files: seq<FileContent>, analysisType: string, i: nat)
    requires i < |files|
    ensures Contains(DiagramPrompt(files, analysisType), FileBlock(files[i]))
  {
    JoinContainsParts(FileBlocks(files), Separator, i);
    var head := PromptIntroStart + analysisType + PromptIntroEnd + Instruction(analysisType) + OutputRules + FilesHeader;
    ContainsWithin(head, FileInfo(files), [], FileBlock(files[i]));
    assert head + FileInfo(files) + [] == DiagramPrompt(files, analysisType);
  }

  /** The prompt ends with the file blocks and begins by naming the requested analysis verbatim. */
  lemma PromptFramesFiles(files: seq<FileContent>, analysisType: string)
    ensures StartsWith(DiagramPrompt(files, analysisType), PromptIntroStart + analysisType)
    ensures var p := DiagramPrompt(files, analysisType);
            |p| >= |FileInfo(files)| && p[|p| - |FileInfo(files)|..] == FileInfo(files)
  {
    var s1 := PromptIntroStart + analysisType;
    var s2 := s1 + PromptIntroEnd;
    var s3 := s2 + Instruction(analysisType);
    var s4 := s3 + OutputRules;
    var s5 := s4 + FilesHeader;
    StartsWithSelf(s1);
    StartsWithExtend(s1, s1, PromptIntroEnd);
    StartsWithExtend(s2, s1, Instruction(analysisType));
    StartsWithExtend(s3, s1, OutputRules);
    StartsWithExtend(s4, s1, FilesHeader);
    StartsWithExtend(s5, s1, FileInfo(files));
    EndsWithTail(s5, FileInfo(files));
  }

  /** The instruction depends only on the lower-cased analysis type. */
  lemma InstructionIgnoresCase(analysisType: string)
    ensures Instruction(ToLower(analysisType)) == Instruction(analysisType)
  {
    ToLowerIdempotent(analysisType);
  }

  // ---------------------------------------------------------------------
  // The question prompt

  const QuestionPreamble: string := "I have some code files from a repository that I'd like you to analyze and answer a question about. The context includes functions, classes, interfaces, and their relationships.\n    \n    Question: "
  const QuestionPostamble: string := "\n\n    Please provide a detailed and helpful answer based on the code. If the question is unclear or cannot be answered based on the provided code, explain why and what additional information would be needed.\n\n    Here are the code files:\n\n    "

  /** The question prompt: the fixed preamble, the question, the fixed request, the code context. */
  function QuestionPrompt(question: string, context: string): (p: string)
    ensures StartsWith(p, QuestionPreamble + question)
  {
    QuestionPreamble + question + QuestionPostamble + context
  }

  /** The question is asked verbatim and the whole code context closes the prompt. */
  lemma QuestionPromptCarriesBoth(question: string, context: string)
    ensures Contains(QuestionPrompt(question, context), question)
    ensures var p := QuestionPrompt(question, context); p[|p| - |context|..] == context
  {
    ContainsMiddle(QuestionPreamble, question, QuestionPostamble + context);
    assert QuestionPreamble + question + (QuestionPostamble + context) == QuestionPrompt(question, context);
  }

  // ---------------------------------------------------------------------
  // Reading the uploads

  /**
   * Reading every upload from its temporary path: the contents paired with
   * the original names, or a bad request naming the first file (in upload
   * order) that could not be read.
   */
  function ReadFilesContent(files: seq<UploadedFile>, read: string -> Option<string>): (r: Result<seq<FileContent>, ServiceError>)
    ensures r.Success? ==> |r.value| == |files|
    ensures r.Success? ==> forall i :: 0 <= i < |files| ==>
              read(files[i].path).Some? && r.value[i] == FileContent(files[i].originalname, read(files[i].path).value)
    ensures r.Failure? ==> exists i :: (0 <= i < |files| && read(files[i].path).None?
                                        && r.error == BadRequest(ReadFailurePrefix + files[i].path + "/" + files[i].originalname))
    decreases |files|
  {
    if files == [] then Success([])
    else
      var f := files[0];
      var content := read(f.path);
      if content.None? then Failure(BadRequest(ReadFailurePrefix + f.path + "/" + f.originalname))
      else
        var rest := ReadFilesContent(files[1..], read);
        if rest.Failure? then
          var i :| 0 <= i < |files[1..]| && read(files[1..][i].path).None?
                   && rest.error == BadRequest(ReadFailurePrefix + files[1..][i].path + "/" + files[1..][i].originalname);
          assert files[1..][i] == files[i + 1];
          Failure(rest.error)
        else
          var r := [FileContent(f.originalname, content.value)] + rest.value;
          assert forall i :: 1 <= i < |files| ==> r[i] == rest.value[i - 1] && files[i] == files[1..][i - 1];
          Success(r)
  }

  // ---------------------------------------------------------------------
  // Diagram from uploads

  /** What the diagram request yields: read, guard, prompt, one model call, extraction. */
  function DiagramOutcome(files: seq<UploadedFile>, analysisType: string, read: string -> Option<string>,
                          llm: string -> LlmReply): (r: Result<string, ServiceError>)
    ensures r.Success? ==>
              var contents := ReadFilesContent(files, read);
              contents.Success? && CheckTokenLimit(EstimateFor(contents.value)).None?
              && GenerateWithOpenAI(llm, DiagramPrompt(contents.value, analysisType)).Success?
              && IsTrimmed(r.value)
  {
    var contents := ReadFilesContent(files, read);
    if contents.Failure? then Failure(contents.error)
    else
      var limit := CheckTokenLimit(EstimateFor(contents.value));
      if limit.Some? then Failure(TokenLimitBadRequest(limit.value))
      else
        var response := GenerateWithOpenAI(llm, DiagramPrompt(contents.value, analysisType));
        if response.Failure? then Failure(InternalServerError(DiagramFailedMessage))
        else Success(Mermaid.ExtractMermaidCode(response.value))
  }

  /** The diagram request as the service runs it. */
  method GenerateDiagram(files: seq<UploadedFile>, analysisType: string, read: string -> Option<string>,
                         llm: string -> LlmReply)
    returns (r: Result<string, ServiceError>)
    ensures r == DiagramOutcome(files, analysisType, read, llm)
  {
    var contents := ReadFilesContent(files, read);
    if contents.Failure? {
      return Failure(contents.error);
    }
    var estimatedTokens := EstimateTokenCount(contents.value);
    if estimatedTokens > MaxTokensInput {
      return Failure(TokenLimitBadRequest(TokenLimitExceeded(estimatedTokens, MaxTokensInput)));
    }
    var prompt := DiagramPrompt(contents.value, analysisType);
    var response := GenerateWithOpenAI(llm, prompt);
    if response.Failure? {
      return Failure(InternalServerError(DiagramFailedMessage));
    }
    return Success(Mermaid.ExtractMermaidCode(response.value));
  }

  /**
   * Only three errors leave the diagram request: the unreadable file, the
   * token limit, and one fixed internal error for everything the model does wrong.
   */
  lemma DiagramErrors(files: seq<UploadedFile>, analysisType: string, read: string -> Option<string>,
                      llm: string -> LlmReply)
    ensures var r := DiagramOutcome(files, analysisType, read, llm);
            r.Failure? ==> (r.error.BadRequest? && StartsWith(r.error.message, ReadFailurePrefix))
                           || (r.error.TokenLimitBadRequest? && r.error.limit.estimatedTokens > r.error.limit.maxTokens)
                           || r.error == InternalServerError(DiagramFailedMessage)
  {
    var contents := ReadFilesContent(files, read);
    if contents.Failure? {
      var i :| 0 <= i < |files| && read(files[i].path).None?
               && contents.error == BadRequest(ReadFailurePrefix + files[i].path + "/" + files[i].originalname);
      var m := contents.error.message;
      assert m[..|ReadFailurePrefix|] == ReadFailurePrefix;
    }
  }

  /**
   * The guard comes before the model: when the readable files are over the
   * limit the request fails with the token error, whatever the model would say.
   */
  lemma DiagramGuardPrecedesModel(files: seq<UploadedFile>, analysisType: string, read: string -> Option<string>,
                                  llm1: string -> LlmReply, llm2: string -> LlmReply)
    requires ReadFilesContent(files, read).Success?
    requires FileChars(ReadFilesContent(files, read).value) > 359500
    ensures DiagramOutcome(files, analysisType, read, llm1) == DiagramOutcome(files, analysisType, read, llm2)
    ensures DiagramOutcome(files, analysisType, read, llm1).Failure?
    ensures DiagramOutcome(files, analysisType, read, llm1).error.TokenLimitBadRequest?
  {
    GuardAdmitsExactly(ReadFilesContent(files, read).value);
  }

  /** A successful diagram reply is trimmed, and it is a diagram whenever the reply or its first fenced block is one. */
  lemma DiagramSuccess(files: seq<UploadedFile>, analysisType: string, read: string -> Option<string>,
                       llm: string -> LlmReply)
    requires DiagramOutcome(files, analysisType, read, llm).Success?
    ensures IsTrimmed(DiagramOutcome(files, analysisType, read, llm).value)
    ensures var contents := ReadFilesContent(files, read).value;
            var reply := GenerateWithOpenAI(llm, DiagramPrompt(contents, analysisType)).value;
            Mermaid.IsMermaidCode(reply) ==> Mermaid.IsMermaidCode(DiagramOutcome(files, analysisType, read, llm).value)
  {
    var contents := ReadFilesContent(files, read).value;
    Mermaid.ExtractFindsDiagram(GenerateWithOpenAI(llm, DiagramPrompt(contents, analysisType)).value);
  }

  // ---------------------------------------------------------------------
  // Question about uploads

  /** What the question request yields: context extraction, guard, prompt, one model call, the reply verbatim. */
  function AnswerOutcome(question: string, files: seq<UploadedFile>,
                         extractContext: seq<UploadedFile> -> Result<string, string>,
                         llm: string -> LlmReply): (r: Result<string, ServiceError>)
    ensures r.Failure? ==> r.error.TokenLimitBadRequest? || r.error == InternalServerError(AnswerFailedMessage)
    ensures extractContext(files).Success? ==>
              ((r.Failure? && r.error.TokenLimitBadRequest?) <==> Utf16Length(extractContext(files).value) > 359500)
    ensures r.Success? ==> (extractContext(files).Success?
                            && Utf16Length(extractContext(files).value) <= 359500
                            && llm(QuestionPrompt(question, extractContext(files).value)).Reply?)
  {
    var context := extractContext(files);
    if context.Failure? then Failure(InternalServerError(AnswerFailedMessage))
    else
      var limit := CheckTokenLimit(EstimateTokenCountByText(context.value));
      TextGuardAdmitsExactly(context.value);
      if limit.Some? then Failure(TokenLimitBadRequest(limit.value))
      else
        var answer := GenerateWithOpenAI(llm, QuestionPrompt(question, context.value));
        if answer.Failure? then Failure(InternalServerError(AnswerFailedMessage)) else Success(answer.value)
  }

  // ---------------------------------------------------------------------
  // The two-stage pipelines: structural diagram, then model improvement

  /** The class improver: one model call on the diagram, the reply cut to its class diagram. */
  function ImproveClassDiagram(improve: string -> LlmReply, mermaidCode: string): (r: Result<string, string>)
    ensures r.Failure? ==> StartsWith(r.error, ApiFailurePrefix)
  {
    var content := GenerateWithOpenAI(improve, mermaidCode);
    if content.Failure? then Failure(content.error) else Success(Mermaid.TrimClassReply(content.value))
  }

  /** Whenever the improver's reply mentions a class diagram, the improved result is a valid diagram. */
  lemma ClassImprovementIsDiagram(improve: string -> LlmReply, mermaidCode: string)
    requires GenerateWithOpenAI(improve, mermaidCode).Success?
    requires Contains(GenerateWithOpenAI(improve, mermaidCode).value, Mermaid.ClassKeyword)
    ensures Mermaid.IsMermaidCode(ImproveClassDiagram(improve, mermaidCode).value)
  {
    var content := GenerateWithOpenAI(improve, mermaidCode).value;
    IndexOfFindsContained(content, Mermaid.ClassKeyword);
    Mermaid.ClassReplyIsDiagram(content);
  }

  /** The sequence improver: one model call on the diagram, the reply cut to its sequence diagram. */
  function ImproveSequenceDiagram(improve: string -> LlmReply, mermaidCode: string): (r: Result<string, string>)
    ensures r.Failure? ==> StartsWith(r.error, ApiFailurePrefix)
  {
    var content := GenerateWithOpenAI(improve, mermaidCode);
    if content.Failure? then Failure(content.error) else Success(Mermaid.TrimSequenceReply(content.value))
  }

  /** Whenever the improver's reply mentions a sequence diagram and a fence, the improved result is a valid diagram. */
  lemma SequenceImprovementIsDiagram(improve: string -> LlmReply, mermaidCode: string)
    requires GenerateWithOpenAI(improve, mermaidCode).Success?
    requires Contains(GenerateWithOpenAI(improve, mermaidCode).value, Mermaid.SequenceKeyword)
    requires Contains(GenerateWithOpenAI(improve, mermaidCode).value, Mermaid.Fence)
    ensures Mermaid.IsMermaidCode(ImproveSequenceDiagram(improve, mermaidCode).value)
  {
    var content := GenerateWithOpenAI(improve, mermaidCode).value;
    IndexOfFindsContained(content, Mermaid.SequenceKeyword);
    LastIndexOfFindsContained(content, Mermaid.Fence);
    Mermaid.SequenceReplyIsDiagram(content);
  }

  /**
   * What the class pipeline yields. The token error is caught by the
   * pipeline's own handler and replaced by the fixed internal error; a
   * failing improvement is not awaited inside the handler and escapes as is.
   */
  function TsMermaidOutcome(files: seq<UploadedFile>,
                            parse: map<string, string> -> Result<seq<ClassDiagram.ClassSourceFile>, string>,
                            improve: string -> LlmReply): (r: Result<string, ServiceError>)
    ensures r.Success? ==> EstimateFor(AsFileContents(files)) <= MaxTokensInput && parse(ProjectOf(files)).Success?
  {
    if EstimateFor(AsFileContents(files)) > MaxTokensInput then Failure(InternalServerError(TsDiagramFailedMessage))
    else
      var parsed := parse(ProjectOf(files));
      if parsed.Failure? then Failure(InternalServerError(TsDiagramFailedMessage))
      else
        var improved := ImproveClassDiagram(improve, ClassDiagram.ClassDiagramText(parsed.value));
        if improved.Failure? then Failure(UnhandledError(improved.error)) else Success(improved.value)
  }

  method GenerateTsMermaidDiagram(files: seq<UploadedFile>,
                                  parse: map<string, string> -> Result<seq<ClassDiagram.ClassSourceFile>, string>,
                                  improve: string -> LlmReply)
    returns (r: Result<string, ServiceError>)
    ensures r == TsMermaidOutcome(files, parse, improve)
  {
    var estimatedTokens := EstimateTokenCountFromFiles(files);
    if estimatedTokens > MaxTokensInput {
      return Failure(InternalServerError(TsDiagramFailedMessage));
    }
    var diagram := ClassDiagram.GenerateClassDiagram(files, parse);
    if diagram.Failure? {
      return Failure(InternalServerError(TsDiagramFailedMessage));
    }
    var improved := ImproveClassDiagram(improve, diagram.value);
    if improved.Failure? {
      return Failure(UnhandledError(improved.error));
    }
    return Success(improved.value);
  }

  /** What the sequence pipeline yields; its errors are handled as in the class pipeline. */
  function TsSequenceOutcome(files: seq<UploadedFile>,
                             parse: map<string, string> -> Result<seq<SequenceDiagram.SequenceSourceFile>, string>,
                             improve: string -> LlmReply): (r: Result<string, ServiceError>)
    ensures r.Success? ==> EstimateFor(AsFileContents(files)) <= MaxTokensInput && parse(ProjectOf(files)).Success?
  {
    if EstimateFor(AsFileContents(files)) > MaxTokensInput then Failure(InternalServerError(TsDiagramFailedMessage))
    else
      var parsed := parse(ProjectOf(files));
      if parsed.Failure? then Failure(InternalServerError(TsDiagramFailedMessage))
      else
        var improved := ImproveSequenceDiagram(improve, SequenceDiagram.SequenceDiagramText(parsed.value));
        if improved.Failure? then Failure(UnhandledError(improved.error)) else Success(improved.value)
  }

  method GenerateTsSequenceDiagram(files: seq<UploadedFile>,
                                   parse: map<string, string> -> Result<seq<SequenceDiagram.SequenceSourceFile>, string>,
                                   improve: string -> LlmReply)
    returns (r: Result<string, ServiceError>)
    ensures r == TsSequenceOutcome(files, parse, improve)
  {
    var estimatedTokens := EstimateTokenCountFromFiles(files);
    if estimatedTokens > MaxTokensInput {
      return Failure(InternalServerError(TsDiagramFailedMessage));
    }
    var diagram := SequenceDiagram.GenerateSequenceDiagram(files, parse);
    if diagram.Failure? {
      return Failure(InternalServerError(TsDiagramFailedMessage));
    }
    var improved := ImproveSequenceDiagram(improve, diagram.value);
    if improved.Failure? {
      return Failure(UnhandledError(improved.error));
    }
    return Success(improved.value);
  }

  /**
   * The two-stage pipelines never answer with a bad request: an oversized
   * upload, a parse failure and the generator's own failure all become the
   * one internal error, and a model failure escapes with its API message.
   */
  lemma TsPipelineErrors(files: seq<UploadedFile>,
                         parseClasses: map<string, string> -> Result<seq<ClassDiagram.ClassSourceFile>, string>,
                         parseFunctions: map<string, string> -> Result<seq<SequenceDiagram.SequenceSourceFile>, string>,
                         improve: string -> LlmReply)
    ensures var r := TsMermaidOutcome(files, parseClasses, improve);
            r.Failure? ==> r.error == InternalServerError(TsDiagramFailedMessage)
                           || (r.error.UnhandledError? && StartsWith(r.error.message, ApiFailurePrefix))
    ensures var r := TsSequenceOutcome(files, parseFunctions, improve);
            r.Failure? ==> r.error == InternalServerError(TsDiagramFailedMessage)
                           || (r.error.UnhandledError? && StartsWith(r.error.message, ApiFailurePrefix))
  {
  }

  /** Over the limit, both pipelines fail with the internal error before parsing or calling the model. */
  lemma TsGuardHidesTokenError(files: seq<UploadedFile>,
                               parseClasses: map<string, string> -> Result<seq<ClassDiagram.ClassSourceFile>, string>,
                               parseFunctions: map<string, string> -> Result<seq<SequenceDiagram.SequenceSourceFile>, string>,
                               improve: string -> LlmReply)
    requires FileChars(AsFileContents(files)) > 359500
    ensures TsMermaidOutcome(files, parseClasses, improve) == Failure(InternalServerError(TsDiagramFailedMessage))
    ensures TsSequenceOutcome(files, parseFunctions, improve) == Failure(InternalServerError(TsDiagramFailedMessage))
  {
    GuardAdmitsExactly(AsFileContents(files));
  }

  /** The model is shown exactly the diagram the structural generator produced from the parsed uploads. */
  lemma TsModelSeesGeneratedDiagram(files: seq<UploadedFile>,
                                    parse: map<string, string> -> Result<seq<ClassDiagram.ClassSourceFile>, string>,
                                    improve: string -> LlmReply)
    requires FileChars(AsFileContents(files)) <= 359500
    requires parse(ProjectOf(files)).Success?
    ensures var code := ClassDiagram.ClassDiagramText(parse(ProjectOf(files)).value);
            var reply := improve(code);
            && Mermaid.IsMermaidCode(code)
            && (reply.Reply? <==> TsMermaidOutcome(files, parse, improve).Success?)
            && (reply.Reply? && reply.content.Some? && Contains(reply.content.value, Mermaid.ClassKeyword) ==>
                  Mermaid.IsMermaidCode(TsMermaidOutcome(files, parse, improve).value))
  {
    GuardAdmitsExactly(AsFileContents(files));
    var code := ClassDiagram.ClassDiagramText(parse(ProjectOf(files)).value);
    ClassDiagram.ClassDiagramIsMermaid(parse(ProjectOf(files)).value);
    var improved := ImproveClassDiagram(improve, code);
    var outcome := TsMermaidOutcome(files, parse, improve);
    assert outcome == if improved.Failure? then Failure(UnhandledError(improved.error)) else Success(improved.value);
    var content := GenerateWithOpenAI(improve, code);
    assert improved.Success? <==> content.Success?;
    var reply := improve(code);
    if reply.Reply? && reply.content.Some? && Contains(reply.content.value, Mermaid.ClassKeyword) {
      assert content.value == reply.content.value;
      ClassImprovementIsDiagram(improve, code);
    }
  }
}
