# AI code analyzer: verified model of the analysis core

This project models the core of a NestJS back end that turns uploaded or
GitHub-hosted source files into Mermaid diagrams and into answers from a
language model. The model covers:

- **Token budget.** The character-count estimate of the tokens a request
  will use, and the guard that rejects a request above 90 000 tokens.
- **Mermaid recognition and extraction.** How the model's free-text reply is
  recognised as Mermaid (first line starting with one of nine keywords), how
  a fenced block is pulled out of it, and how the class-diagram and
  sequence-diagram improvement replies are trimmed.
- **Prompts.** The diagram prompt and the question prompt sent to the model.
- **Structural generators.** The class-diagram and sequence-diagram text
  emitted from the TypeScript parser's view of the uploaded files, with the
  `/virtual/<name>` project in which a later upload overwrites an earlier one.
- **Pipelines.** `generateDiagram`, `answerQuestionFromFiles`,
  `generateTsMermaidDiagram` and `generateTsSequenceDiagram`, each with the
  errors it lets out.
- **GitHub import.** Owner and repository from the URL path, the
  source-file whitelist (with Node's `path.extname` rules), the depth-bounded
  walk over the contents API, and the size (500 KiB) and count (20) limits.
- **Error taxonomy.** Seven error kinds, their default messages and their
  HTTP statuses.

Everything outside the process is a function parameter:

- the language model (`string -> LlmReply`);
- reading an upload from disk;
- the TypeScript parser (its result is an abstract list of classes or of
  functions and their calls);
- the code-context extractor;
- the GitHub contents API.

Where the code does something other than what it evidently means, the model
keeps both versions (see "## Findings"), and the rest of the model uses the
corrected one.

Modules, one file each:

- `Wrappers`: Option and Result.
- `JsString`: the JavaScript string operations the code uses.
- `TokenBudget`, `Mermaid`, `VirtualProject`, `ClassDiagram`,
  `SequenceDiagram`, `AnalyzerService`, `GithubService` and `Errors`.

The loops of the source are methods, each proved equal to a specification
function; the properties are lemmas about those functions. The loops are:

- the length count (in UTF-16 code units) in the token estimate;
- the `+=` emission in the class generator and the sequence generator;
- the overwriting upload loop;
- the recursive GitHub walk.

## Model

| member | source | states |
|---|---|---|
| VirtualProject.VirtualPath | apps/api/src/ai-code-analyzer/diagrams-generator/class-diagram-generator.ts:17 | the path is the `/virtual/` root followed by the upload's original name |
| VirtualProject.VirtualPathInjective | apps/api/src/ai-code-analyzer/diagrams-generator/sequence-diagram-generator.ts:16 | two uploads land on the same virtual path only when their original names are equal |
| VirtualProject.ProjectOf | apps/api/src/ai-code-analyzer/diagrams-generator/class-diagram-generator.ts:16-19 | the project holds one file per distinct original-name string, with the content of the last upload under it |
| VirtualProject.BuildProject | apps/api/src/ai-code-analyzer/diagrams-generator/sequence-diagram-generator.ts:15-18 | the overwriting upload loop builds exactly the project of the uploads |
| VirtualProject.LastUploadWins | apps/api/src/ai-code-analyzer/diagrams-generator/class-diagram-generator.ts:16-19 | the content kept under a name is that of the last upload with that name |
| TokenBudget.CeilQuarter | apps/api/src/ai-code-analyzer/ai-code-analyzer.service.ts:147 | the estimate is the least t with 4t >= n, the integer form of `ceil(n * 0.25)` |
| TokenBudget.EstimateTokenCount | apps/api/src/ai-code-analyzer/ai-code-analyzer.service.ts:132-148 | the loop's total is ceil((sum of the name and content lengths in UTF-16 code units + 500) / 4) |
| TokenBudget.EstimateTokenCountFromFiles | apps/api/src/ai-code-analyzer/ai-code-analyzer.service.ts:415-431 | the same formula computed from `originalname` and content, lengths in UTF-16 code units |
| TokenBudget.AsFileContents | apps/api/src/ai-code-analyzer/ai-code-analyzer.service.ts:421-425 | each upload counts as a file named by its original name, with the same content, in order |
| TokenBudget.EstimateTokenCountByText | apps/api/src/ai-code-analyzer/ai-code-analyzer.service.ts:150-158 | ceil((length in UTF-16 code units + 500) / 4), so even empty text costs at least 125 tokens |
| TokenBudget.CheckTokenLimit | apps/api/src/ai-code-analyzer/ai-code-analyzer.service.ts:53-61 | rejects exactly when the estimate exceeds 90000, carrying the estimate and the 90000 limit |
| TokenBudget.FileCharsAppend | apps/api/src/ai-code-analyzer/ai-code-analyzer.service.ts:138-141 | the code-unit count of a concatenated batch is the sum of the counts of its parts |
| TokenBudget.AddingFileNeverLowersEstimate | apps/api/src/ai-code-analyzer/ai-code-analyzer.service.ts:136-147 | adding a file to the batch never lowers the estimate |
| TokenBudget.MergedEstimate | apps/api/src/ai-code-analyzer/ai-code-analyzer.service.ts:136-147 | merging two batches costs at least each one, and the overhead is counted once |
| TokenBudget.GuardAdmitsExactly | apps/api/src/ai-code-analyzer/ai-code-analyzer.service.ts:50-61 | a batch passes the guard exactly when its names and contents total at most 359500 UTF-16 code units |
| TokenBudget.TextGuardAdmitsExactly | apps/api/src/ai-code-analyzer/ai-code-analyzer.service.ts:98-108 | a code context passes the guard exactly when it has at most 359500 UTF-16 code units |
| TokenBudget.AstralTextGuard | apps/api/src/ai-code-analyzer/ai-code-analyzer.service.ts:98-108 | a code context made only of characters outside the Basic Multilingual Plane passes exactly when it has at most 179750 characters |
| Mermaid.KeywordsAreWords | apps/api/src/ai-code-analyzer/ai-code-analyzer.service.ts:333-343 | helper fact: none of the nine diagram keywords is empty or holds white space, so trimming keeps a leading keyword |
| Mermaid.SomeKeywordStartsIff | apps/api/src/ai-code-analyzer/ai-code-analyzer.service.ts:346-350 | `some(...)` holds exactly when the line starts with one of the listed keywords |
| Mermaid.IsMermaidCode | apps/api/src/ai-code-analyzer/ai-code-analyzer.service.ts:331-351 | blank text is never recognised (the exact test is IsMermaidCodeIff) |
| Mermaid.IsMermaidCodeIff | apps/api/src/ai-code-analyzer/ai-code-analyzer.service.ts:331-351 | text is Mermaid exactly when the trimmed first line of the trimmed text starts with one of the nine keywords |
| Mermaid.IsMermaidCodeOfTrim | apps/api/src/ai-code-analyzer/ai-code-analyzer.service.ts:345 | recognition ignores surrounding white space |
| Mermaid.EmptyIsNotMermaid | apps/api/src/ai-code-analyzer/ai-code-analyzer.service.ts:345-350 | the empty reply is not Mermaid |
| Mermaid.StartsWithKeywordIsMermaid | apps/api/src/ai-code-analyzer/ai-code-analyzer.service.ts:345-350 | text starting with a keyword is Mermaid |
| Mermaid.BodyStart | apps/api/src/ai-code-analyzer/ai-code-analyzer.service.ts:313 | the body starts after the optional `mermaid` tag and all the white space after it, at a non-space character or the end |
| Mermaid.FencedBlockBody | apps/api/src/ai-code-analyzer/ai-code-analyzer.service.ts:312-316 | a found body is the slice from the body start after the first fence up to the first fence from there on |
| Mermaid.FencedBlockFound | apps/api/src/ai-code-analyzer/ai-code-analyzer.service.ts:312-316 | a block is found exactly when the reply holds two fences that do not overlap; none is found exactly when there is no fence, or no fence from the body start on |
| Mermaid.ExtractMermaidCode | apps/api/src/ai-code-analyzer/ai-code-analyzer.service.ts:305-326 | the result never has white space at either end |
| Mermaid.ExtractFindsDiagram | apps/api/src/ai-code-analyzer/ai-code-analyzer.service.ts:305-326 | the result is Mermaid exactly when the reply is, or the trimmed body of its first fenced block is |
| Mermaid.ExtractIdempotentOnDiagrams | apps/api/src/ai-code-analyzer/ai-code-analyzer.service.ts:305-326 | extracting again from a result that is Mermaid returns it unchanged |
| Mermaid.TrimClassReply | apps/api/src/ai-code-analyzer/ai-code-analyzer.service.ts:530-532 | with `classDiagram` present, the result is the trimmed suffix from its first occurrence and starts with it; otherwise the reply is unchanged |
| Mermaid.ClassReplyIsDiagram | apps/api/src/ai-code-analyzer/ai-code-analyzer.service.ts:530-532 | a reply mentioning `classDiagram` always trims to valid Mermaid |
| Mermaid.FenceNotInsideKeyword | apps/api/src/ai-code-analyzer/ai-code-analyzer.service.ts:478-479 | a fence never overlaps an occurrence of `sequenceDiagram` |
| Mermaid.TrimSequenceReplyAsWritten | apps/api/src/ai-code-analyzer/ai-code-analyzer.service.ts:477-482 | with the keyword and a fence present, the trimmed text between the first keyword and the last fence, in whichever order they come (the `substring` swap); otherwise the reply unchanged |
| Mermaid.FirstSequenceKeyword | apps/api/src/ai-code-analyzer/ai-code-analyzer.service.ts:478 | an occurrence with no `s` before it is the one `indexOf` finds |
| Mermaid.OnlyLeadingFence | apps/api/src/ai-code-analyzer/ai-code-analyzer.service.ts:479 | when the reply's only backticks are its opening fence, `lastIndexOf` finds that fence |
| Mermaid.UnclosedFenceLosesDiagram | apps/api/src/ai-code-analyzer/ai-code-analyzer.service.ts:477-482 | a reply whose only fence opens it keeps just the text before the keyword |
| Mermaid.UnclosedTaggedFence | apps/api/src/ai-code-analyzer/ai-code-analyzer.service.ts:477-482 | for an opening fence line with a tag, the result is that fence line alone |
| Mermaid.TruncatedReplyLeavesFence | apps/api/src/ai-code-analyzer/ai-code-analyzer.service.ts:477-482 | the truncated reply of the first finding is reduced to the fence line |
| Mermaid.FenceLineIsNotDiagram | apps/api/src/ai-code-analyzer/ai-code-analyzer.service.ts:477-482 | that fence line is not Mermaid |
| Mermaid.NotDiagramWhenFenced | apps/api/src/ai-code-analyzer/ai-code-analyzer.service.ts:345-350 | text whose first character is a backtick is never Mermaid |
| Mermaid.TrimSequenceReply | apps/api/src/ai-code-analyzer/ai-code-analyzer.service.ts:477-482 | corrected: with the keyword and a fence present, the result starts with `sequenceDiagram`; otherwise the reply is unchanged |
| Mermaid.SequenceReplyIsDiagram | apps/api/src/ai-code-analyzer/ai-code-analyzer.service.ts:477-482 | corrected: a reply holding the keyword and a fence always trims to valid Mermaid |
| Mermaid.SequenceFixOnlyTouchesSwap | apps/api/src/ai-code-analyzer/ai-code-analyzer.service.ts:477-482 | the correction agrees with the code whenever no swap happens |
| JsString.TemplateText | apps/api/src/ai-code-analyzer/diagrams-generator/class-diagram-generator.ts:24 | a present name is printed as itself inside the template literal (a missing one prints as `undefined`) |
| JsString.ToLower | apps/api/src/github/github.service.ts:308 | each character lower-cased: `A`-`Z` to `a`-`z`, the Kelvin sign to `k`, any other kept |
| JsString.Utf16Length | apps/api/src/ai-code-analyzer/ai-code-analyzer.service.ts:139-140 | `length` counts code units: between the number of characters and twice it |
| JsString.Utf16LengthAppend | apps/api/src/ai-code-analyzer/ai-code-analyzer.service.ts:138-141 | the length of a concatenation is the sum of the lengths |
| JsString.BmpLength | apps/api/src/ai-code-analyzer/ai-code-analyzer.service.ts:152 | text without characters beyond U+FFFF has one code unit per character |
| JsString.AstralLength | apps/api/src/ai-code-analyzer/ai-code-analyzer.service.ts:152 | text of characters beyond U+FFFF only has two code units per character |
| ClassDiagram.PropertyLines | apps/api/src/ai-code-analyzer/diagrams-generator/class-diagram-generator.ts:25-29 | one `name: type` line per property, in declaration order |
| ClassDiagram.MethodLines | apps/api/src/ai-code-analyzer/diagrams-generator/class-diagram-generator.ts:30-32 | one `name()` line per method, in declaration order |
| ClassDiagram.RenderLine | apps/api/src/ai-code-analyzer/diagrams-generator/class-diagram-generator.ts:21-33 | every emitted piece is a whole line ending in a line break |
| ClassDiagram.RenderAllAppend | apps/api/src/ai-code-analyzer/diagrams-generator/class-diagram-generator.ts:21-35 | the text of a concatenation of lines is the concatenation of their texts |
| ClassDiagram.EmitClass | apps/api/src/ai-code-analyzer/diagrams-generator/class-diagram-generator.ts:24-33 | the inner loops emit exactly the rendered block of one class |
| ClassDiagram.ClassText | apps/api/src/ai-code-analyzer/diagrams-generator/class-diagram-generator.ts:24-33 | a class block's text is its opening line, then its property lines, then its method lines, then the closing brace |
| ClassDiagram.EmitFileClasses | apps/api/src/ai-code-analyzer/diagrams-generator/class-diagram-generator.ts:23-34 | the loop over one file's classes emits exactly their blocks, in declaration order |
| ClassDiagram.EmitClassDiagram | apps/api/src/ai-code-analyzer/diagrams-generator/class-diagram-generator.ts:21-37 | the loop over the files emits exactly the header followed by every file's class blocks, in file order |
| ClassDiagram.ClassDiagramText | apps/api/src/ai-code-analyzer/diagrams-generator/class-diagram-generator.ts:21-37 | the diagram starts with the `classDiagram` header line |
| ClassDiagram.GenerateClassDiagram | apps/api/src/ai-code-analyzer/diagrams-generator/class-diagram-generator.ts:3-45 | the parse of the overwritten project gives the diagram, and any failure becomes the single message 'Failed to generate ts-mermaid diagram' |
| ClassDiagram.WellFormedConcat | apps/api/src/ai-code-analyzer/diagrams-generator/class-diagram-generator.ts:22-34 | appending a closed sequence of blocks keeps the line sequence well formed |
| ClassDiagram.MethodsWellFormed | apps/api/src/ai-code-analyzer/diagrams-generator/class-diagram-generator.ts:30-33 | method lines followed by the closing line are well formed |
| ClassDiagram.PropertiesWellFormed | apps/api/src/ai-code-analyzer/diagrams-generator/class-diagram-generator.ts:25-33 | every property line comes before every method line inside a block |
| ClassDiagram.ClassBlockWellFormed | apps/api/src/ai-code-analyzer/diagrams-generator/class-diagram-generator.ts:24-33 | a block is open line, properties, methods, close line |
| ClassDiagram.ClassesWellFormed | apps/api/src/ai-code-analyzer/diagrams-generator/class-diagram-generator.ts:23-34 | the blocks of several classes follow one another without nesting |
| ClassDiagram.DiagramWellFormed | apps/api/src/ai-code-analyzer/diagrams-generator/class-diagram-generator.ts:21-35 | the output is the header and then only class blocks; no other kind of line, such as a relationship arrow, appears |
| ClassDiagram.NamesOfClasses | apps/api/src/ai-code-analyzer/diagrams-generator/class-diagram-generator.ts:24 | one printed name per class, in order |
| ClassDiagram.OpenedNamesAppend | apps/api/src/ai-code-analyzer/diagrams-generator/class-diagram-generator.ts:22-34 | the opened class names of concatenated lines concatenate |
| ClassDiagram.NoOpenAmongMembers | apps/api/src/ai-code-analyzer/diagrams-generator/class-diagram-generator.ts:25-33 | member and closing lines open no class |
| ClassDiagram.ClassBlockOpensOnce | apps/api/src/ai-code-analyzer/diagrams-generator/class-diagram-generator.ts:24-33 | a block opens exactly its own class, once |
| ClassDiagram.ClassesOpenInOrder | apps/api/src/ai-code-analyzer/diagrams-generator/class-diagram-generator.ts:23-34 | the blocks of a file open its classes in declaration order |
| ClassDiagram.FilesOpenInOrder | apps/api/src/ai-code-analyzer/diagrams-generator/class-diagram-generator.ts:22-35 | across files, classes are opened in file-then-declaration order |
| ClassDiagram.EveryClassOpensOnce | apps/api/src/ai-code-analyzer/diagrams-generator/class-diagram-generator.ts:21-35 | the whole diagram opens exactly one block per class, in file-then-declaration order |
| ClassDiagram.NoClassesBareHeader | apps/api/src/ai-code-analyzer/diagrams-generator/class-diagram-generator.ts:21 | with no classes the output is just `classDiagram` and a newline |
| ClassDiagram.ClassDiagramIsMermaid | apps/api/src/ai-code-analyzer/diagrams-generator/class-diagram-generator.ts:21 | the output always starts with `classDiagram` and is recognised as Mermaid |
| ClassDiagram.DiagramExtends | apps/api/src/ai-code-analyzer/diagrams-generator/class-diagram-generator.ts:22-35 | more files only append text after the earlier files' text |
| ClassDiagram.FilesLinesAppend | apps/api/src/ai-code-analyzer/diagrams-generator/class-diagram-generator.ts:22-35 | the lines of concatenated file lists concatenate |
| SequenceDiagram.FunctionArrows | apps/api/src/ai-code-analyzer/diagrams-generator/sequence-diagram-generator.ts:33-52 | never more arrows than descendants |
| SequenceDiagram.RenderArrow | apps/api/src/ai-code-analyzer/diagrams-generator/sequence-diagram-generator.ts:47 | an arrow line reads `caller->>callee` and ends in a line break |
| SequenceDiagram.ArrowsTextAppend | apps/api/src/ai-code-analyzer/diagrams-generator/sequence-diagram-generator.ts:47 | the text of concatenated arrows is the concatenation of their texts |
| SequenceDiagram.EmitFunction | apps/api/src/ai-code-analyzer/diagrams-generator/sequence-diagram-generator.ts:32-52 | the descendant loop emits exactly the arrow lines of one function |
| SequenceDiagram.GenerateSequenceDiagramFromSourceFile | apps/api/src/ai-code-analyzer/diagrams-generator/sequence-diagram-generator.ts:29-55 | the function loop emits exactly the arrow lines of the file's functions, in order |
| SequenceDiagram.EmitSequenceDiagram | apps/api/src/ai-code-analyzer/diagrams-generator/sequence-diagram-generator.ts:20-26 | the file loop emits the header followed by each file's fragment, in file order |
| SequenceDiagram.SequenceDiagramText | apps/api/src/ai-code-analyzer/diagrams-generator/sequence-diagram-generator.ts:20-26 | the diagram starts with the `sequenceDiagram` header line |
| SequenceDiagram.GenerateSequenceDiagram | apps/api/src/ai-code-analyzer/diagrams-generator/sequence-diagram-generator.ts:3-27 | the parse of the overwritten project gives the diagram; a parser failure propagates unchanged |
| SequenceDiagram.FunctionArrowsSound | apps/api/src/ai-code-analyzer/diagrams-generator/sequence-diagram-generator.ts:43-48 | every arrow goes from the enclosing function to the non-empty last name segment of a named callee |
| SequenceDiagram.FunctionArrowsComplete | apps/api/src/ai-code-analyzer/diagrams-generator/sequence-diagram-generator.ts:43-48 | every qualifying call yields its arrow |
| SequenceDiagram.OneArrowPerCall | apps/api/src/ai-code-analyzer/diagrams-generator/sequence-diagram-generator.ts:31-53 | no deduplication: arrows number exactly the qualifying calls; unnamed callees and empty last segments are dropped |
| SequenceDiagram.FunctionsArrowCount | apps/api/src/ai-code-analyzer/diagrams-generator/sequence-diagram-generator.ts:31-53 | a file fragment has exactly one arrow per qualifying call of its functions |
| SequenceDiagram.TotalArrowCount | apps/api/src/ai-code-analyzer/diagrams-generator/sequence-diagram-generator.ts:20-53 | the whole diagram has exactly one arrow per qualifying call, summed over every function of every file |
| SequenceDiagram.FunctionArrowsAppend | apps/api/src/ai-code-analyzer/diagrams-generator/sequence-diagram-generator.ts:33-52 | arrows keep discovery order across concatenated descendant lists |
| SequenceDiagram.ArrowsStartAtFunctions | apps/api/src/ai-code-analyzer/diagrams-generator/sequence-diagram-generator.ts:31-53 | every arrow's caller is one of the file's functions |
| SequenceDiagram.AllArrowsAppend | apps/api/src/ai-code-analyzer/diagrams-generator/sequence-diagram-generator.ts:22-24 | file fragments are concatenated in file order |
| SequenceDiagram.DiagramExtends | apps/api/src/ai-code-analyzer/diagrams-generator/sequence-diagram-generator.ts:20-26 | more files only append arrow lines |
| SequenceDiagram.NoArrowsBareHeader | apps/api/src/ai-code-analyzer/diagrams-generator/sequence-diagram-generator.ts:20 | with no qualifying calls the output is just `sequenceDiagram` and a newline |
| SequenceDiagram.SequenceDiagramIsMermaid | apps/api/src/ai-code-analyzer/diagrams-generator/sequence-diagram-generator.ts:20 | the output always starts with `sequenceDiagram` and is recognised as Mermaid |
| AnalyzerService.GenerateWithOpenAI | apps/api/src/ai-code-analyzer/ai-code-analyzer.service.ts:261-300 | succeeds exactly on a well-formed reply, with its content or '' when it has none; failures carry the 'OpenAI API request failed: ' prefix |
| AnalyzerService.FileBlocks | apps/api/src/ai-code-analyzer/ai-code-analyzer.service.ts:193-196 | one `File:` block per file, in order |
| AnalyzerService.Instruction | apps/api/src/ai-code-analyzer/ai-code-analyzer.service.ts:202-226 | the instruction is always one of the five listed texts |
| AnalyzerService.DiagramPrompt | apps/api/src/ai-code-analyzer/ai-code-analyzer.service.ts:189-235 | the prompt contains the instruction selected for the analysis type |
| AnalyzerService.PromptCarriesEveryFile | apps/api/src/ai-code-analyzer/ai-code-analyzer.service.ts:189-235 | every file's block occurs in the diagram prompt |
| AnalyzerService.PromptFramesFiles | apps/api/src/ai-code-analyzer/ai-code-analyzer.service.ts:199-234 | the prompt begins with the intro naming the analysis type and ends with the joined file blocks |
| AnalyzerService.InstructionIgnoresCase | apps/api/src/ai-code-analyzer/ai-code-analyzer.service.ts:202 | the instruction depends on the lower-cased analysis type only |
| AnalyzerService.QuestionPrompt | apps/api/src/ai-code-analyzer/ai-code-analyzer.service.ts:237-256 | the prompt starts with the fixed preamble followed by the question verbatim |
| AnalyzerService.QuestionPromptCarriesBoth | apps/api/src/ai-code-analyzer/ai-code-analyzer.service.ts:240-256 | the question prompt contains the question and ends with the code context |
| AnalyzerService.ReadFilesContent | apps/api/src/ai-code-analyzer/ai-code-analyzer.service.ts:163-184 | on success, one named content per upload in order; on failure, the 'Failed to read file: path/name' error of an upload that could not be read |
| AnalyzerService.DiagramOutcome | apps/api/src/ai-code-analyzer/ai-code-analyzer.service.ts:44-81 | success only when every upload was read, the batch passed the token guard and the model answered; the diagram is trimmed |
| AnalyzerService.GenerateDiagram | apps/api/src/ai-code-analyzer/ai-code-analyzer.service.ts:44-81 | the method's sequence of steps yields exactly the diagram pipeline's outcome |
| AnalyzerService.DiagramErrors | apps/api/src/ai-code-analyzer/ai-code-analyzer.service.ts:44-81 | only a read error, the token-limit error or 'Failed to generate diagram' can escape |
| AnalyzerService.DiagramGuardPrecedesModel | apps/api/src/ai-code-analyzer/ai-code-analyzer.service.ts:50-68 | an over-budget batch is rejected with the token-limit error whatever the model would answer |
| AnalyzerService.DiagramSuccess | apps/api/src/ai-code-analyzer/ai-code-analyzer.service.ts:62-70 | a successful result is trimmed, and it is Mermaid whenever the model's reply was |
| AnalyzerService.AnswerOutcome | apps/api/src/ai-code-analyzer/ai-code-analyzer.service.ts:86-127 | only the token-limit error or 'Failed to answer question about code' escape; once the context is extracted, the token error happens exactly when it exceeds 359500 UTF-16 code units; success means the context was within that bound and the model answered |
| AnalyzerService.ImproveClassDiagram | apps/api/src/ai-code-analyzer/ai-code-analyzer.service.ts:489-537 | failures carry the 'OpenAI API request failed: ' prefix |
| AnalyzerService.ClassImprovementIsDiagram | apps/api/src/ai-code-analyzer/ai-code-analyzer.service.ts:530-532 | a reply mentioning `classDiagram` yields valid Mermaid |
| AnalyzerService.ImproveSequenceDiagram | apps/api/src/ai-code-analyzer/ai-code-analyzer.service.ts:436-487 | failures carry the 'OpenAI API request failed: ' prefix |
| AnalyzerService.SequenceImprovementIsDiagram | apps/api/src/ai-code-analyzer/ai-code-analyzer.service.ts:477-482 | with the corrected trimming, a reply holding the keyword and a fence yields valid Mermaid |
| AnalyzerService.TsMermaidOutcome | apps/api/src/ai-code-analyzer/ai-code-analyzer.service.ts:353-381 | success only when the batch is within the token limit and the overwritten project parsed |
| AnalyzerService.TsSequenceOutcome | apps/api/src/ai-code-analyzer/ai-code-analyzer.service.ts:383-410 | success only when the batch is within the token limit and the overwritten project parsed |
| AnalyzerService.GenerateTsMermaidDiagram | apps/api/src/ai-code-analyzer/ai-code-analyzer.service.ts:353-381 | the method yields exactly the class pipeline's outcome |
| AnalyzerService.GenerateTsSequenceDiagram | apps/api/src/ai-code-analyzer/ai-code-analyzer.service.ts:383-410 | the method yields exactly the sequence pipeline's outcome |
| AnalyzerService.TsPipelineErrors | apps/api/src/ai-code-analyzer/ai-code-analyzer.service.ts:353-410 | only 'Failed to generate ts-mermaid diagram' or the model's own failure (the improvement promise is returned without `await`) can escape |
| AnalyzerService.TsGuardHidesTokenError | apps/api/src/ai-code-analyzer/ai-code-analyzer.service.ts:357-379 | an over-budget batch is reported as the generic internal error, not the token-limit error |
| AnalyzerService.TsModelSeesGeneratedDiagram | apps/api/src/ai-code-analyzer/ai-code-analyzer.service.ts:368-370 | the model receives the structurally generated diagram, which is Mermaid; the pipeline succeeds exactly when the model replies |
| GithubService.NonEmpty | apps/api/src/github/github.service.ts:196 | `filter(Boolean)` keeps only non-empty segments, each taken from the input |
| GithubService.ParseRepoUrl | apps/api/src/github/github.service.ts:192-208 | fails only with 'Invalid GitHub repository URL'; owner and repository are non-empty and slash-free |
| GithubService.ParseRepoUrlReadsFirstSegments | apps/api/src/github/github.service.ts:196-205 | `/owner/repo` followed by anything after a slash names that owner and repository |
| GithubService.OwnerAloneIsInvalid | apps/api/src/github/github.service.ts:198-200 | a path with one segment is rejected |
| GithubService.StripGitAsWritten | apps/api/src/github/github.service.ts:254 | as written: without `.git` the name is unchanged; with one, exactly four characters go |
| GithubService.StripGitAsWrittenCutsFirst | apps/api/src/github/github.service.ts:254 | the first `.git` is removed wherever it stands |
| GithubService.PagesRepositoryIsMangled | apps/api/src/github/github.service.ts:254 | `octocat.github.io` becomes `octocathub.io` |
| GithubService.StripGitSuffix | apps/api/src/github/github.service.ts:254 | corrected: only a trailing `.git` is removed |
| GithubService.StripGitSuffixOfCloneName | apps/api/src/github/github.service.ts:254 | corrected: a clone name `name.git` becomes `name` |
| GithubService.PagesRepositoryIsKept | apps/api/src/github/github.service.ts:254 | corrected: `octocat.github.io` is left alone, unlike the code as written |
| GithubService.NormalizePath | apps/api/src/github/github.service.ts:253 | a leading `./` is removed, and any other path is kept |
| GithubService.NormalizeStripsOnce | apps/api/src/github/github.service.ts:253 | the `./` prefix is removed once only |
| GithubService.ContentsUrl | apps/api/src/github/github.service.ts:254 | the URL begins with the API root and the owner, and ends with the requested path |
| GithubService.ContentsUrlIgnoresCloneSuffix | apps/api/src/github/github.service.ts:254 | a clone name and its plain name request the same contents |
| GithubService.BaseNameWithinPath | apps/api/src/github/github.service.ts:308 | the last segment has no slash and comes from the path |
| GithubService.ExtName | apps/api/src/github/github.service.ts:308 | no longer than the path, and starting with its dot when not empty |
| GithubService.ExtNameShape | apps/api/src/github/github.service.ts:308 | an extension is empty or starts with its dot |
| GithubService.IsValidFileType | apps/api/src/github/github.service.ts:307-338 | an accepted name has an extension of at least two characters (the exact test is ValidFileTypeIff) |
| GithubService.ValidFileTypeIff | apps/api/src/github/github.service.ts:307-338 | accepted exactly when the lower-cased extension is one of the 25 listed |
| GithubService.NoExtensionIsInvalid | apps/api/src/github/github.service.ts:307-337 | a name without a dot has no extension and is rejected |
| GithubService.ExtensionDecides | apps/api/src/github/github.service.ts:307-338 | for `stem.ext`, the extension is `.ext`, and it alone decides acceptance |
| GithubService.DotfileIsInvalid | apps/api/src/github/github.service.ts:307-337 | a dotfile such as `.ts` has no extension and is rejected |
| GithubService.ExtensionCaseIgnored | apps/api/src/github/github.service.ts:308 | upper-case extensions are accepted like lower-case ones |
| GithubService.KelvinExtensionAccepted | apps/api/src/github/github.service.ts:307-338 | `Main.` followed by the Kelvin sign and `t` is accepted, since it lower-cases to `.kt` |
| GithubService.CalculateTotalSize | apps/api/src/github/github.service.ts:392-394 | 0 for no files, and never less than any one file's size |
| GithubService.TotalSizeAppend | apps/api/src/github/github.service.ts:393 | the total of a concatenated batch is the sum of the totals |
| GithubService.CheckLimits | apps/api/src/github/github.service.ts:153-171 | a batch that passes is returned unchanged and is within 512000 bytes and 20 files |
| GithubService.LimitsAdmitExactly | apps/api/src/github/github.service.ts:153-173 | a batch passes, unchanged, exactly when it totals at most 512000 bytes and has at most 20 files |
| GithubService.SizeCheckedFirst | apps/api/src/github/github.service.ts:153-162 | an oversized batch is reported as oversized with its total and 512000, even when it also has too many files |
| GithubService.CountCheckedSecond | apps/api/src/github/github.service.ts:164-171 | the count error happens exactly for a batch within the size limit with more than 20 files, carrying the count and 20 |
| GithubService.AcceptedPrefixAccepted | apps/api/src/github/github.service.ts:153-171 | dropping files from an accepted batch keeps it accepted |
| GithubService.FetchFilesRecursively | apps/api/src/github/github.service.ts:237-302 | the loop and recursion return exactly the walk's outcome |
| GithubService.DepthBoundStopsWalk | apps/api/src/github/github.service.ts:246-249 | a walk started past the depth bound returns no files, whatever the bound |
| GithubService.DefaultWalk | apps/api/src/github/github.service.ts:243-253 | with the defaults (`./src`, depth bound 3) the walk asks for `src`, and a sub-directory listed at depth 3 contributes nothing |
| GithubService.Collect | apps/api/src/github/github.service.ts:246-302 | every file the walk of a path returns is a file entry of an accepted type |
| GithubService.ItemFiles | apps/api/src/github/github.service.ts:268-283 | every file one entry contributes is a file entry of an accepted type |
| GithubService.CollectItems | apps/api/src/github/github.service.ts:267-284 | every file one listing contributes is a file entry of an accepted type |
| GithubService.FetchItem | apps/api/src/github/github.service.ts:271-283 | one pass of the listing loop yields exactly that entry's contribution: the kept file, the sub-directory's walk one level deeper, or nothing |
| GithubService.CollectItemsNext | apps/api/src/github/github.service.ts:270-284 | one more entry either appends its contribution to the files so far or ends the walk with its failure |
| GithubService.CollectItemsStops | apps/api/src/github/github.service.ts:267-284 | once an entry fails, the whole listing fails with its message |
| GithubService.CollectKeepsValidFiles | apps/api/src/github/github.service.ts:267-291 | every file returned is a file entry of an accepted type |
| GithubService.CollectItemsAppend | apps/api/src/github/github.service.ts:267-284 | listing order is kept: the files of `a + b` are those of `a` then those of `b`, and the first failure wins |
| GithubService.CollectItemsSingle | apps/api/src/github/github.service.ts:268-283 | one entry contributes itself if kept, its directory's walk one level deeper, or nothing |
| GithubService.SubdirectorySplicedIn | apps/api/src/github/github.service.ts:270-282 | a sub-directory's files are spliced in at its position |
| GithubService.KeptFileInPlace | apps/api/src/github/github.service.ts:269-270 | a kept file appears at its position in the listing |
| GithubService.CollectFailureNamesPath | apps/api/src/github/github.service.ts:294-301 | every failure is reported as 'Error fetching files from path <path>: ...' for the starting path |
| Errors.NewError | apps/api/src/utils/exceptions/errors.ts:20-80 | the error has the constructor's kind, and the given message or, when none is passed, the kind's default message |
| Errors.DefaultMessage | apps/api/src/utils/exceptions/errors.ts:20-80 | every kind has a non-empty default message |
| Errors.ToHttpException | apps/api/src/utils/exceptions/errors.ts:84-107 | the message is preserved unchanged; the status is one of 400, 401, 403, 404, 500, 502 |
| Errors.StatusOf | apps/api/src/utils/exceptions/errors.ts:85-106 | every kind is reported with an HTTP error status, 4xx or 5xx |
| Errors.StatusTable | apps/api/src/utils/exceptions/errors.ts:85-106 | NOT_FOUND gives 404, ILLEGAL_ARGUMENT 400, UNAUTHORIZED 401, FORBIDDEN 403, EXTERNAL_ERROR 502, and DATABASE and UNKNOWN 500, each in both directions |
| Errors.StatusIdentifiesKind | apps/api/src/utils/exceptions/errors.ts:85-106 | apart from 500, the status tells the kind |
| Errors.ServerSideStatuses | apps/api/src/utils/exceptions/errors.ts:94-105 | a status of 500 or more comes exactly from DATABASE, UNKNOWN or EXTERNAL_ERROR |
| Errors.MessageSurvives | apps/api/src/utils/exceptions/errors.ts:20-107 | a message passed to any constructor is the text of the HTTP exception |
| Errors.DefaultMessagesDistinct | apps/api/src/utils/exceptions/errors.ts:20-80 | no two kinds share a default message |
| Errors.DefaultOnlyWhenOmitted | apps/api/src/utils/exceptions/errors.ts:20-80 | the message equals the default exactly when none is passed or the default itself is passed |

## Left out

- OpenAI requests: the model configuration (model name, temperature, token
  maximum, read with `parseFloat`) and the request messages of the two
  improvement calls. The texts those requests use live in
  `ai-code-analyzer.constants.ts`, which is not part of this model.
  The model's reply is an opaque input to the improvers.
- The TypeScript parser (ts-morph: `getClasses`, `getType().getText()`,
  `getDescendants`, `Node.hasName`). Its result is an abstract list of classes,
  or of functions and their call descendants. The order of
  `project.getSourceFiles()` is taken as the order of that list.
- `extractCodeContext` and its `JSON.stringify` output. The code context is an
  opaque string given by a parameter.
- File system and network:
  - reading uploads, which is a parameter;
  - `cleanupFiles`, `downloadFiles` (writing to `uploads/`, skipping files whose
    download fails), `getRepoInfo`, `exchangeCodeForToken` and
    `getUserRepositories`;
  - axios and the composition in `getFilesFromRepo` of parse, repository
    information, walk, download and limits. The limit check is modelled on the
    downloaded batch; the GitHub contents API is a parameter.
- `Promise.all` concurrency in `readFilesContent`. The model reports the first
  failing upload in list order, while the code reports whichever read rejects
  first.
- URL parsing by `new URL`. The model takes the parsed pathname, or nothing
  when the text is not a URL.
- The human-readable `message` texts with `Math.round(x / 1024)` or
  `Math.round(x / 1000)` in the size and token errors. The structured fields
  (`totalSize`/`maxSize`, `fileCount`/`maxFiles`, `estimatedTokens`/`maxTokens`)
  are modelled.
- `error.response?.data?.message ||` fallbacks. The failure text of an API call
  is an input.
- Logging, controllers, modules, the cache service, the exception filter and
  the browser scripts.
- `JsString.ToLower`: maps only `A`-`Z` and the Kelvin sign (the characters
  whose lower case is a single ASCII letter) and keeps every other character.
  JavaScript lower-cases the other upper-case letters to non-ASCII text (U+0130
  becomes `i` followed by a combining dot), so the comparisons with the
  lower-case ASCII extensions and analysis types come out the same either way.
- `VirtualProject.ProjectOf`: keys the project by the original name as
  given. ts-morph standardises the path it is given, so `a.ts`, `./a.ts` and
  `x/../a.ts` name one file there (the later upload wins), while the model
  keeps them apart. The order of the parsed files is the parser's and is
  not modelled.
- `GithubService.StripGitSuffix`: the walk uses the corrected `.git` strip,
  not the code's first-occurrence `replace` (see Findings).
- `AnalyzerService.ImproveSequenceDiagram`: uses the corrected trimming, not
  the code's swapping `substring` (see Findings).

## Findings

| source | as written | input that shows it | evidently intended | confidence | as-written member | corrected member |
|---|---|---|---|---|---|---|
| apps/api/src/github/github.service.ts:254 | `repo.replace('.git', '')` removes the first `.git` anywhere in the repository name (the same call appears at line 216) | the repository `octocat.github.io` is requested as `octocathub.io` | remove only a trailing `.git` from a clone-style name | not executed; high | GithubService.PagesRepositoryIsMangled | GithubService.StripGitSuffixOfCloneName |
| apps/api/src/ai-code-analyzer/ai-code-analyzer.service.ts:477-482 | `content.substring(startIndex, endIndex)` with the last fence before the keyword swaps the bounds and returns the text before the diagram | a reply cut off after an opening fence: "```mermaid\nsequenceDiagram\n  A->>B: Call B\n" yields "```mermaid" | keep the diagram from the keyword on when no closing fence follows it | not executed; high | Mermaid.TruncatedReplyLeavesFence | Mermaid.SequenceReplyIsDiagram |
