# eBasic, modelled and verified

eBasic translates a BASIC dialect to C++ and ships a package manager, `ebpm`.
This project models the parts of it whose correctness is least visible from the
code, and proves what each is for.

**Control flow.** `Basic` gives the meaning of IF, SELECT, FOR, DO, WHILE, EXIT
and RETURN; `Cpp` gives the meaning of the blocks, temporaries, labels, `break`
and `goto` that the compiler emits; `Codegen` is the translation, as a function
and as the generator that draws names from a counter and keeps a stack of exit
labels. `Lowering` and `ControlFlow` prove that a translated procedure returns
what the BASIC procedure returns, for every meaning of its expressions (which
may have side effects), and that both run forever together. `Exits` is the
analyser that accepts EXIT statements; `Names` is about generated names as text;
`TypeOrder` is the order in which TYPE definitions are emitted.

**Packages.** `SemVer` has versions and requirements. `Resolve` is the walk that
resolves a dependency graph; `Resolution` and `DependencyGraph` say what its
result is in terms of the graph, `Requests` which dependency each version was
picked for, and `Acyclic` when it succeeds. `Lockfile` is the file it leaves
behind, as text; `LockedRebuild` proves that a rebuild from that text repeats the
first resolution, and says exactly when it does, and which dependencies keep their
commit or version: those whose name is the key under which it was stored.
`TransitiveDeps` collects what a package links with.

**Preprocessor.** `MacroText` expands macros in text; `MacroExpansion`,
`MacroBodies` and `MacroCalls` say what that guarantees, for bodies, arguments and
whole calls. `PpExpr` and `PpExprMeaning` are the `#if` evaluator and the trees it
computes; `PpGrouping` says what its operators compute and how they group.
`Preprocessor` expands files with all directives; `PlainText`, `Conditions`,
`Directives` and `Includes` say what text, conditions, conditional chains,
definitions and `#include` lines do, in terms of the lines that are written; `Conditionals` proves that the stack of conditionals computes what
their nesting means, `Nesting` that the expander reports no structure error
exactly for well-nested files, `LineMap` what each line of output and each entry
of the line map comes from and exactly when the two keep step, with a file of
either kind in `InlineBlocks`; `BlockDepth` says when expansion ends, with an
instance in `NestedBlocks`.

**Parser, dates, command lines.** `ExprSyntax`, `ExprParser`, `ExprRoundTrip`,
`ExprShortest` and `ExprGrouping` treat the fifteen-level expression grammar;
`Statements` is the statement parser, as far as it moves, reports and recovers, and
`StatementText` the statements that it takes without a report. `Calendar` and
`DateLib` are the calendar functions of the runtime; `Argv` the quoting of Windows
command lines against the C runtime's published rules for splitting them.

Where the source works step by step, a class or a method with loops does the
same and is proved equal to a function; the lemmas are about that function. The
statement parser has no such function: its methods state what they guarantee.

## Model

| member | source | states |
|---|---|---|
| Lowering.LowerBlockPreserves | compiler/src/codegen/codegen.cpp:438-661 | running the emitted statements gives the source's store and outcome, an EXIT being a jump to the label of the nearest loop of its kind; at every fuel, and no temporary leaks |
| Lowering.ForPreserves | compiler/src/codegen/codegen.cpp:573-600 | TO, STEP and start are evaluated once, in that order, before the variable is assigned; the sign of the step picks the copy of the body that runs |
| Lowering.ForSetup | compiler/src/codegen/codegen.cpp:580-595 | the braces of a FOR evaluate TO, STEP and start, assign, and run the loop that the sign of the step picks |
| Lowering.DoPreserves | compiler/src/codegen/codegen.cpp:601-622 | all combinations of tests before and after the body |
| Lowering.WhilePreserves | compiler/src/codegen/codegen.cpp:623-634 | a WHILE and its braced C++ loop followed by a label do the same |
| Lowering.SelectPreserves | compiler/src/codegen/codegen.cpp:548-572 | the selector is evaluated once; the first matching arm runs, else CASE ELSE |
| Lowering.ArmsPreserve | compiler/src/codegen/codegen.cpp:532-547 | the first arm whose condition holds runs, and later conditions are not evaluated |
| ControlFlow.AcceptedProcPreserved | compiler/src/codegen/codegen.cpp:898-1014 | a procedure that the analyser accepts is emitted and returns, for every input and fuel, what the BASIC procedure returns |
| ControlFlow.AcceptedModulePreserved | compiler/src/codegen/codegen.cpp:1187-1213 | the main program and every procedure of a module keep their meaning, however their statements are interleaved on the one counter |
| ControlFlow.MainPreserves | compiler/src/codegen/codegen.cpp:1187-1213 | the statements of the main program, emitted with procedures between them, run as one block |
| ControlFlow.SameAndOnlyResult | compiler/src/codegen/codegen.cpp:898-1014 | the emitted function and the procedure return the same, and at most one, result, with no bound on the run |
| ControlFlow.OneResult | compiler/src/codegen/codegen.cpp:573-634 | a finished run keeps its result however much longer it is allowed, on both sides |
| ControlFlow.DivergeTogether | compiler/src/codegen/codegen.cpp:573-634 | the emitted function runs forever if and only if the BASIC procedure does |
| ControlFlow.AcceptedProcIsGood | compiler/src/codegen/codegen.cpp:573-661 | emission does not throw, each generated name is introduced at most once although FOR bodies are emitted twice, and each label stands right after the braces its jumps leave |
| ControlFlow.AcceptedModule | compiler/src/codegen/codegen.cpp:1187-1213 | a module is emitted in full, main statements and procedures in the order they stand in; no generated name occurs twice in the two streams together |
| Codegen.Generator.GenStmt | compiler/src/codegen/codegen.cpp:444-661 | the generator emits the specified code, moves its counter as specified, and leaves its loop stack as it was |
| Codegen.Generator.GenFor | compiler/src/codegen/codegen.cpp:573-600 | the three temporaries, the two copies of the body with fresh names each, and the exit label |
| Codegen.Generator.GenCases | compiler/src/codegen/codegen.cpp:548-572 | the chain of arms over the selector temporary |
| Codegen.Generator.FindExitLabel | compiler/src/codegen/codegen.cpp:641-661 | the innermost label of the wanted kind, or none |
| Codegen.Generator.GenModule | compiler/src/codegen/codegen.cpp:1187-1213 | main statements and procedures, one after the other on one counter, into two streams; nothing if one throws |
| Exits.Sema.CheckProc | compiler/src/sema/sema.cpp:1772-1774 | a procedure is accepted if and only if it has no EXIT without a construct to leave |
| Exits.Sema.CheckStmt | compiler/src/sema/sema.cpp:1600-1713 | the EXITs reported are those the specification lists, in source order, and the loop stack is restored |
| Exits.SameLoop | compiler/src/sema/sema.cpp:1695-1713 | analyser and generator match an EXIT to the same loop, or both to none |
| Exits.LowersExactly | compiler/src/codegen/codegen.cpp:641-661 | generation throws on a statement exactly when some EXIT FOR, DO or WHILE in it is reported |
| Names.RenderInjective | compiler/src/codegen/codegen.cpp:430-432 | distinct generated names have distinct text |
| Names.CollisionExactly | compiler/src/codegen/codegen.cpp:11-15 | a user's name meets a generated one exactly when its lower-case form is that name without `eb_` |
| Names.CollisionOccurs | compiler/src/codegen/codegen.cpp:574-576 | such a name exists: `_ForExit0` |
| TypeOrder.SortedIffAcyclic | compiler/src/codegen/codegen.cpp:716-834 | in the emitted order every TYPE stands after all it embeds or extends if and only if no TYPE needs itself |
| TypeOrder.TypeGenerator.GenTypes | compiler/src/codegen/codegen.cpp:1187-1215 | on any declarations, cyclic ones too, every TYPE is emitted exactly once, after what it needs unless that needs it back |
| TypeOrder.TypeGenerator.GenTypeDecl | compiler/src/codegen/codegen.cpp:716-834 | one call ends, keeps the order and the sets of names, and handles its type |
| TypeOrder.FinishOrders | compiler/src/codegen/codegen.cpp:742-834 | emitting a type keeps the order: what it needs and has not come is on the stack, and so needs it |
| Resolve.Resolver.Resolve | pkg/src/resolve.cpp:46-225 | the resolver returns the specified outcome and tables, with the specified error |
| Resolve.Resolver.VisitPackage | pkg/src/resolve.cpp:70-222 | one visit, with its memo, cycle check, stack, order and error cases |
| Resolution.ChosenMatches | pkg/src/resolve.cpp:139-191 | the version chosen satisfies the requirement; it is the pinned one, from the pinned source at the pinned commit, if that satisfies it, and otherwise the best published one, from the source and branch, tag or revision of its first entry in the index, with no commit |
| Resolution.NoneChosenExactly | pkg/src/resolve.cpp:139-187 | there is no choice if and only if no pin counts and no published version satisfies the requirement |
| Resolution.VisitKeepsInv | pkg/src/resolve.cpp:70-222 | every visit keeps the tables consistent, dependencies before dependents, the stack a dependency path, the picks those that their requirements choose; a circular error comes with a path that closes on itself |
| Resolution.LocateLooksUp | pkg/src/resolve.cpp:93-200 | finding a dependency makes its pick, changes no other, and leads where a look-up in the final picks leads |
| DependencyGraph.OrderIsExactlyReachable | pkg/src/resolve.cpp:70-224 | on success the order lists exactly the packages reachable from the root, each once, root last, dependencies first, each with the manifest the world has for it, found as some dependency leads to it, and with a library unless it is the root |
| DependencyGraph.OneVersionPerName | pkg/src/resolve.cpp:106-198 | each registry name has one pick, which meets every requirement anywhere in the graph; it was made for the first dependency on the name that the walk met, and is pinned or the best published version for that one's requirement, with that version's source |
| Requests.PicksAreForFirstRequests | pkg/src/resolve.cpp:106-198 | the requests are the dependencies of the listed packages, no others and none left out, and each pick records the requirement and the requirer of the first request for its name |
| DependencyGraph.FinishedIsGrounded | pkg/src/resolve.cpp:93-126 | listed manifests are the world's, and every package but the root has a library and stands where a dependency of a listed package leads |
| Acyclic.CircularMeansClosedPath | pkg/src/resolve.cpp:78-92 | in any world, a circular dependency is reported only with a path of dependencies from the root whose last one leads back onto it |
| Acyclic.ResolvesIffAcyclic | pkg/src/resolve.cpp:70-224 | where all that is reachable from the root can be had, through path, git and registry edges, resolution succeeds if and only if no cycle is reachable from the root |
| Acyclic.PinnedResolvesIffAcyclic | pkg/src/resolve.cpp:139-155 | the same where pins meet all registry requirements, however these differ |
| DependencyGraph.NoCycle | pkg/src/resolve.cpp:78-86 | no package of a finished resolution depends on itself |
| LockedRebuild.RebuildRepeats | pkg/src/resolve.cpp:58-224 | resolving again with pins that keep what was found gives the same order, directories, commits and picks, whatever the index and branches hold by then |
| LockedRebuild.RebuildFromLockfile | pkg/src/resolve.cpp:58-224 | the written lockfile has such pins if names are unique and those of the dependencies, and each package is found alike by all of them |
| LockedRebuild.RebuildRepeatsExactly | pkg/src/resolve.cpp:58-224 | with any pins, a rebuild repeats in every later world with the same trees if and only if it repeats now, each git dependency is pinned to a commit that has been fetched, and the pin of each registry name chooses its pick |
| LockedRebuild.KeepsPickExactly | pkg/src/resolve.cpp:139-198 | a registry name leads to its pick in every later world if and only if the pin stored under that name chooses it, whatever the package calls itself |
| LockedRebuild.KeepsCommitExactly | pkg/src/resolve.cpp:100-104 | in any finished resolution a git dependency is fetched at its commit in every later world if and only if the lockfile stores that commit under the dependency's name |
| LockedRebuild.OtherPinMoves | pkg/src/resolve.cpp:100-104 | for any other stored value there is a later world with the same trees in which the commit fetched differs |
| LockedRebuild.NamesKeepPins | pkg/src/lockfile.cpp:76-101 | pins that record each package under its name keep everything if names can serve as keys |
| LockedRebuild.RebuildOfAlias | pkg/src/resolve.cpp:100-104 | the smallest failing input: one git dependency under another name than the package's own is fetched at whatever the branch holds by then |
| LockedRebuild.VisitRepeats | pkg/src/resolve.cpp:70-222 | each visit of the rebuild does what the same visit did first |
| LockedRebuild.RegistryRepeats | pkg/src/resolve.cpp:139-198 | a registry pick is found again from its pin, without the index |
| LockedRebuild.GitRepeats | pkg/src/resolve.cpp:100-104 | a git dependency is fetched again at the commit it led to |
| Lockfile.LockfileRoundTrip | pkg/src/lockfile.cpp:39-101 | the written file reads back as one table per package but the root if and only if no value has a control character; otherwise it is malformed and pins nothing |
| Lockfile.EscapeRoundTrip | pkg/src/lockfile.cpp:29-37 | an escaped value reads back as itself if and only if it has no control character |
| Lockfile.EscapeTomlString | pkg/src/lockfile.cpp:29-37 | the loop writes the specified escapes |
| Lockfile.WriteLockfile | pkg/src/lockfile.cpp:41-64 | the loop writes every package but the last, with its optional lines |
| Lockfile.ReadLockfilePins | pkg/src/lockfile.cpp:76-101 | the loop keeps the last usable pin of each name; a malformed file gives none |
| Lockfile.PinOfPackage | pkg/src/lockfile.cpp:84-98 | with unique names, a package's pin holds what the lockfile keeps of it, and every pin is some package's |
| TransitiveDeps.CollectTransitiveDeps | pkg/src/build.cpp:247-258 | exactly the packages reached by at least one dependency, each once, on cyclic graphs too |
| TransitiveDeps.CollectedIsReachable | pkg/src/build.cpp:260-276 | after a resolution with matching names these are the packages it depends on, however indirectly, never itself |
| TransitiveDeps.CollectsMore | pkg/src/build.cpp:251-257 | collecting one more dependency keeps the tables shared by all calls consistent |
| TransitiveDeps.IndexByName | pkg/src/build.cpp:266-267 | every name in use, with the last package of that name |
| SemVer.PickBestSatisfying | pkg/src/semver.cpp:132-139 | a version that matches, than which no matching version is greater; none if none matches |
| SemVer.CaretMeaning | pkg/src/semver.cpp:38-48 | a caret requirement fixes the first nonzero component given, or the last given one |
| SemVer.TildeMeaning | pkg/src/semver.cpp:50-55 | a tilde requirement lets only components after the minor one grow |
| SemVer.VersionRoundTrip | pkg/src/semver.cpp:71-84 | a version written and parsed is the same version |
| SemVer.ParsedIsProper | pkg/src/semver.cpp:86-121 | a parsed requirement leaves out only trailing components |
| SemVer.VersionOrder | pkg/src/semver.cpp:65-69 | versions are ordered by major, then minor, then patch number, totally |
| SemVer.ExactMeaning | pkg/src/semver.cpp:123-130 | an exact requirement is met by its own version only |
| SemVer.ReqRoundTrip | pkg/src/semver.cpp:86-121 | `^`, `~` and `=` before a version make a caret, a tilde and an exact requirement of its components, and no sign makes a caret requirement |
| SemVer.ParsedIsWritten | pkg/src/semver.cpp:86-121 | nothing else is read as a requirement |
| SemVer.SplitOnDots | pkg/src/semver.cpp:25-36 | the loop splits at every dot and keeps empty parts |
| Conditionals.ExpansionIsTree | compiler/src/preprocessor/preprocessor.cpp:698-898 | line-by-line expansion with a flat stack gives output, map and macro table of the nested reading, with all conditions of a chain evaluated where the chain begins |
| Conditionals.FlatIsTree | compiler/src/preprocessor/preprocessor.cpp:698-898 | the same from any line, in any active context |
| Conditionals.ArmsAreTree | compiler/src/preprocessor/preprocessor.cpp:804-849 | the frame's flags remember exactly whether an earlier branch has run |
| Conditionals.SkipTree | compiler/src/preprocessor/preprocessor.cpp:880-884 | a branch that does not run leaves blanks and no other trace, whatever it nests |
| Directives.ChainRuns | compiler/src/preprocessor/preprocessor.cpp:698-898 | of the branches of a chain of any length, the first whose condition is met puts out its line expanded, or the `#else` if none is, and all other lines are blank: `#ifdef n` is met if and only if n is in the table, `#ifndef n` if and only if it is not, `#if` by what its expression means, and the `#elseif` forms likewise |
| Directives.GuardRuns | compiler/src/preprocessor/preprocessor.cpp:794-824 | the same for one condition: the line up to `#endif` is kept if and only if the condition is met |
| Directives.DefinitionLines | compiler/src/preprocessor/preprocessor.cpp:771-793 | a `#define` line puts its name with the text after it into the table in place of what it stood for, an `#undef` line takes the name out |
| Conditions.ConditionMeans | compiler/src/preprocessor/preprocessor.cpp:473-526 | the text of a condition holds if and only if its tree is worth a number other than 0, `defined(n)` being 1 exactly when n is in the table |
| Conditions.DefinitionsKeepNames | compiler/src/preprocessor/preprocessor.cpp:130-166 | whatever is defined, macro names stay names |
| PlainText.PlainPasses | compiler/src/preprocessor/preprocessor.cpp:388-465 | text that names no macro is copied, by expansion and by the reading of `defined`, and what follows it is read as if it stood alone |
| PlainText.PlaceNames | compiler/src/preprocessor/preprocessor.cpp:413-420 | `__LINE__` and `__FILE__` stand for the line and the quoted file they are on |
| Includes.FoundExactly | compiler/src/preprocessor/preprocessor.cpp:558-585 | a path names the file it names beside the including file, or failing that, if relative, in the first directory of the search list where it names one, and no other |
| Includes.RequestMeans | compiler/src/preprocessor/preprocessor.cpp:549-614 | an `#include` line leaves a blank and nothing else if the file is missing, open already, or asked for `once` and included before; otherwise the lines of the file follow |
| Includes.OnceIsOnce | compiler/src/preprocessor/preprocessor.cpp:590-593 | after any expansion in between, a file once included is not brought in by `#include once` |
| Includes.IncludedLines | compiler/src/preprocessor/preprocessor.cpp:587-614 | a file of ordinary lines follows the blank with its lines expanded in the including file's table |
| Nesting.NoFaultIffNested | compiler/src/preprocessor/preprocessor.cpp:794-897 | a file has no structure error, a stray `#endmacro` included, if and only if it is well-nested |
| Nesting.NoneReportedIffNested | compiler/src/preprocessor/preprocessor.cpp:698-898 | the expander has reported no structure error if and only if the file is well-nested, and so is each file it includes and each block it calls, at whatever depth |
| Nesting.FaultsOfRun | compiler/src/preprocessor/preprocessor.cpp:771-897 | the errors reported in an expansion are those of its lines and those of what they include and call |
| LineMap.ExpansionIsMapped | compiler/src/preprocessor/preprocessor.cpp:698-898 | output and map are exactly what is rendered of the lines visited, each in the macro table in force there: an ordinary line its expansion, a skipped line or a directive a blank, a block call its lines, each piece with the line it came from |
| LineMap.OnlyInlineBlocksMisalign | compiler/src/preprocessor/preprocessor.cpp:891-892 | newlines equal entries if and only if no ordinary line, read in the table in force there with its calls replaced by what they stand for, comes to a line end outside the arguments of a call; in particular if none calls a macro of several lines, and not if such a call's first line leaves no bracket open |
| InlineBlocks.InlineBlockMisaligns | compiler/src/preprocessor/preprocessor.cpp:891-892 | a file that defines a block macro of two lines and uses it inside a larger line has more newlines than entries |
| InlineBlocks.LineEndSwallowed | compiler/src/preprocessor/preprocessor.cpp:891-892 | a file in which a macro of two lines is called inside a larger line and newlines equal entries, the line end being inside a call's arguments |
| LineMap.RunTraces | compiler/src/preprocessor/preprocessor.cpp:698-898 | the same for every stretch of every file, through includes, from any state and any stack of conditionals |
| BlockDepth.EnoughDepth | compiler/src/preprocessor/preprocessor.cpp:592-674 | if block calls, with their arguments put in, fall in some rank of lines, every expansion ends, however files include one another, within a depth that the ranks and the number of files give |
| BlockDepth.NamesGiveRanks | compiler/src/preprocessor/preprocessor.cpp:655-674 | calls that go down in an order of macro names, whatever their arguments, fall in rank |
| NestedBlocks.TwoIsEnough | compiler/src/preprocessor/preprocessor.cpp:655-674 | for a block macro that calls another, the depth so found is enough, and one less is not |
| BlockDepth.IncludesEnd | compiler/src/preprocessor/preprocessor.cpp:592-614 | without block macros expansion always ends, however files include one another |
| BlockDepth.MoreDepth | compiler/src/preprocessor/preprocessor.cpp:655-674 | more room for nested block macros changes no finished expansion |
| Preprocessor.SourceExpander.ExpandSource | compiler/src/preprocessor/preprocessor.cpp:698-898 | the expander does to macros, include sets, output and map what the specification says, and counts the structure errors that it says |
| Conditionals.StackSteps | compiler/src/preprocessor/preprocessor.cpp:794-855 | what each conditional directive does to the innermost conditional, the others staying as they are |
| Preprocessor.SourceExpander.HandleInclude | compiler/src/preprocessor/preprocessor.cpp:549-614 | search order, `once`, circular includes and missing files |
| Preprocessor.SourceExpander.ExpandBlock | compiler/src/preprocessor/preprocessor.cpp:655-674 | a block macro's lines, all mapped to the call |
| MacroExpansion.ActiveIsRemoved | compiler/src/preprocessor/preprocessor.cpp:388-465 | expanding while some names are active is expanding with those macros removed from the table |
| MacroExpansion.ObjectMeansBody | compiler/src/preprocessor/preprocessor.cpp:433-437 | a macro's name stands for its body, expanded without that macro |
| MacroExpansion.LineStaysLine | compiler/src/preprocessor/preprocessor.cpp:388-465 | an expanded line is one line if no macro with a body of several lines takes part |
| MacroExpansion.BreaksExactly | compiler/src/preprocessor/preprocessor.cpp:388-465 | an expanded text has several lines if and only if reading it, with calls replaced by what they stand for, comes to a line end outside the arguments of a call |
| MacroExpansion.LineBreaks | compiler/src/preprocessor/preprocessor.cpp:388-465 | it is several if somewhere a macro stands for a text of several lines whose first leaves no bracket open for a later one to close |
| MacroBodies.StringizedReadsBack | compiler/src/preprocessor/preprocessor.cpp:237-256 | `#p` anywhere in a body line becomes one literal, which an `#if` reads back as exactly the argument, whatever its quotes; the rest of the line is expanded as if it stood alone |
| MacroBodies.ConcatJoins | compiler/src/preprocessor/preprocessor.cpp:206-327 | `p##q` anywhere in a body line acts as the two arguments written next to each other if and only if the first leaves no string or comment open, and joins them unchanged if and only if besides none of it holds a `##` |
| MacroBodies.JoinsExactly | compiler/src/preprocessor/preprocessor.cpp:296-325 | splicing around a mark yields the two parts, joined, exactly under that condition |
| MacroBodies.MarkJoins | compiler/src/preprocessor/preprocessor.cpp:296-325 | a mark after closed text disappears without another trace; after an open string or comment it stays |
| MacroBodies.VariadicSplitsAgain | compiler/src/preprocessor/preprocessor.cpp:188-195 | the text of a variadic parameter splits again into the arguments it was given, but for empty ones at their beginning |
| MacroBodies.SplitsAgainExactly | compiler/src/preprocessor/preprocessor.cpp:168-196 | it splits again into all of them if and only if the first is not empty; the comment in the source promises it always |
| MacroBodies.EmptyFirstIsLost | compiler/src/preprocessor/preprocessor.cpp:168-196 | of the arguments in `M(,a)` only the second is passed on |
| MacroText.Expander.ExpandText | compiler/src/preprocessor/preprocessor.cpp:388-465 | ends for every macro table, yields the specified text, and leaves the active names as it found them |
| MacroText.SubstituteMacroBodyLine | compiler/src/preprocessor/preprocessor.cpp:206-327 | the three passes over a macro body line |
| MacroText.SplitTopLevelArgs | compiler/src/preprocessor/preprocessor.cpp:95-120 | the arguments between commas outside brackets and strings, each trimmed |
| MacroText.BindMacroArgs | compiler/src/preprocessor/preprocessor.cpp:178-197 | missing arguments are empty, extra ones go to the variadic parameter or are refused |
| MacroCalls.BindsEach | compiler/src/preprocessor/preprocessor.cpp:178-197 | binding fails if and only if a macro that is not variadic gets too many arguments; otherwise it binds exactly the parameters, each to the argument in its own place or to nothing, and the variadic one to a text that splits into what is left over |
| MacroCalls.CallMeansFilled | compiler/src/preprocessor/preprocessor.cpp:388-465 | a call gives way to the body with each parameter in it replaced by its own argument, `#p` by that as a literal, and marks removed, expanded without the macro; with too many arguments it disappears; what follows the call is expanded as if it stood alone |
| MacroCalls.CallIsFilled | compiler/src/preprocessor/preprocessor.cpp:388-465 | if the filled body names no macro, that is what the call becomes |
| MacroCalls.FunctionHeader | compiler/src/preprocessor/preprocessor.cpp:130-166 | the header of a macro with parameters gives its name, the parameters in order, the variadic one apart, and the body |
| MacroCalls.DefinedCallRuns | compiler/src/preprocessor/preprocessor.cpp:698-898 | a file that defines a macro with parameters and then calls it puts out a blank and the filled body |
| MacroCalls.Difference | compiler/src/preprocessor/preprocessor.cpp:178-197 | the shortest macro in which the order of arguments matters: `a-b` called with x and y gives `x-y` |
| PpExprMeaning.EvaluatesToMeaning | compiler/src/preprocessor/pp_expr.cpp:18-328 | evaluating the text printed for any expression tree gives the tree's value or reports its one error |
| PpExprMeaning.EvalPrinted | compiler/src/preprocessor/pp_expr.cpp:161-320 | the same at every level of the grammar, up to operators that may follow |
| PpExprMeaning.FailsOnlyOn | compiler/src/preprocessor/pp_expr.cpp:195-282 | an ill-typed tree has no value, and a well-typed one lacks a value only where it divides by zero |
| PpExprMeaning.ScanRoundTrip | compiler/src/preprocessor/pp_expr.cpp:18-100 | the text of tokens scans back to them, string literals with doubled quotes included |
| PpExpr.Parser.Parse | compiler/src/preprocessor/pp_expr.cpp:130-138 | the evaluator returns the specified value, or nothing with exactly one report |
| PpExpr.Parser.ParseTerm | compiler/src/preprocessor/pp_expr.cpp:250-271 | products, quotients and remainders from left to right, with their failures |
| PpExpr.DivisionTruncates | compiler/src/preprocessor/pp_expr.cpp:262-267 | division truncates toward zero and the remainder has the dividend's sign |
| PpGrouping.OperatorsCompute | compiler/src/preprocessor/pp_expr.cpp:161-271 | what each of the thirteen operators computes of two numbers, from the text alone, division by zero being an error |
| PpGrouping.TwoOperators | compiler/src/preprocessor/pp_expr.cpp:161-271 | of two operators around a number the one later in the list or, and, comparisons, sums, products takes it, and the left one within one place |
| PpGrouping.PrefixFirst | compiler/src/preprocessor/pp_expr.cpp:183-281 | minus takes the number after it; `not` takes all but `and` and `or` |
| PpExpr.Tokenize | compiler/src/preprocessor/pp_expr.cpp:18-100 | the loop yields the specified tokens |
| ExprRoundTrip.RoundTrip | compiler/src/parser/parser.cpp:1576-1868 | parsing any expression, as printed, gives it back, uses all tokens and reports nothing |
| ExprShortest.PrintIsShortest | compiler/src/parser/parser.cpp:1576-1868 | no tokens that parse to an expression without an error are fewer than those printed for it, so no parenthesis printed can be left out |
| ExprShortest.ParseIsNoShorter | compiler/src/parser/parser.cpp:1593-1868 | the same at each of the fifteen levels, from any position, whatever follows |
| ExprShortest.NoCaretLeft | compiler/src/parser/parser.cpp:1732-1747 | the right operand of a power takes all powers that follow, on any tokens |
| ExprRoundTrip.ParsePrinted | compiler/src/parser/parser.cpp:1593-1868 | the same at each of the fifteen levels, up to operators that may follow |
| ExprRoundTrip.PrintIsUnambiguous | compiler/src/parser/parser.cpp:1576-1868 | no two expressions print alike |
| ExprGrouping.TwoOperators | compiler/src/parser/parser.cpp:1593-1747 | of two operators around an operand the one later in the list from XOR to the caret takes it, the left one within one place, the right one of two powers; with the tree that each operator makes |
| ExprGrouping.PrefixFirst | compiler/src/parser/parser.cpp:1605-1778 | minus, NOT, `*`, `@` and AWAIT before an operand take it, except that a minus takes a whole power and NOT all that binds tighter than AND |
| ExprGrouping.PrefixSecond | compiler/src/parser/parser.cpp:1605-1778 | after an operator a prefix takes its operand; NOT may stand only after XOR, OR and AND |
| ExprGrouping.Selections | compiler/src/parser/parser.cpp:1780-1868 | a dot selects from what stands before it, an arrow from what that points to, and calls take their arguments in order |
| ExprGrouping.Words | compiler/src/parser/parser.cpp:1780-1868 | the words that are operands by themselves |
| ExprParser.Parse | compiler/src/parser/parser.cpp:1593-1868 | on every token list a level ends within the tokens and passes at least one unless at the end, errors or not |
| ExprParser.Parser.ParseExpr | compiler/src/parser/parser.cpp:1593-1603 | the parser returns the specified tree, position and number of errors |
| ExprParser.Parser.ParsePow | compiler/src/parser/parser.cpp:1732-1747 | powers, whose right operand may itself be a negation or a power |
| ExprParser.Parser.ParsePrimaryExpr | compiler/src/parser/parser.cpp:1780-1868 | literals, names, calls, brackets and error recovery |
| Statements.StatementParser.ParseStatement | compiler/src/parser/parser.cpp:855-899 | on any tokens a statement is parsed in finitely many steps and takes at least one token; it ends where a line starts, errors or not; what starts no statement is reported and its line skipped; a block without an error has its own closing words; and a statement written as `StatementText` has it is taken to its end without a report |
| Statements.StatementParser.ParseModule | compiler/src/parser/parser.cpp:91-126 | every token list is parsed to its end, and a module of statements written as `StatementText` has them, blank lines among them, without a report |
| Statements.StatementParser.ParseBlockUntil | compiler/src/parser/parser.cpp:844-853 | a block ends, at one of its closing words or the end of input, at the start of a line; a written one at its own end, without a report |
| Statements.StatementParser.ParseEnum | compiler/src/parser/parser.cpp:336-364 | every line of an ENUM is passed over, a wrong one with a report |
| Statements.StatementParser.ParseRecordDecl | compiler/src/parser/parser.cpp:373-425 | the same for TYPE and UNION, fields and prototypes |
| Statements.StatementParser.ParseExternBlock | compiler/src/parser/parser.cpp:521-556 | the same for EXTERN, with nested namespaces and definitions |
| Statements.StatementParser.ExpectStmtEnd | compiler/src/parser/parser.cpp:47-60 | in every case it stops at the start of the next line, and reports exactly if it skipped something |
| Statements.StatementParser.ParseTypeKeyword | compiler/src/parser/parser.cpp:127-250 | types end, function pointers and coroutines nested in one another included |
| Statements.AfterLine | compiler/src/parser/parser.cpp:57-60 | the next line start: past the token, unless the input ends, and past no other line end |
| Calendar.DaysRoundTrip | runtime/include/ebasic/runtime/datetimelib.hpp:36-63 | every day number names a valid date from which it is recovered |
| Calendar.CivilRoundTrip | runtime/include/ebasic/runtime/datetimelib.hpp:36-63 | every valid date is recovered from its day number |
| Calendar.TomorrowIsOneMore | runtime/include/ebasic/runtime/datetimelib.hpp:36-77 | the next date by month lengths and leap years (the Gregorian calendar of section 3.2.1 of ISO 8601:2004) has the next day number |
| Calendar.EpochIsRight | runtime/include/ebasic/runtime/datetimelib.hpp:67-67 | day 0 is 1970-01-01 |
| Calendar.EraYearIsRight | runtime/include/ebasic/runtime/datetimelib.hpp:56-58 | the closed form finds the year that a day of an era lies in |
| DateLib.MoveMonthsLands | runtime/include/ebasic/runtime/datetimelib.hpp:151-173 | adding months lands on the date that many months later, cut to the month's length, and keeps the time of day |
| DateLib.MonthInRange | runtime/include/ebasic/runtime/datetimelib.hpp:159-167 | truncating division, its correction and the unsigned wrap-around amount to flooring division |
| DateLib.DiffUndoesAdd | runtime/include/ebasic/runtime/datetimelib.hpp:146-200 | DateDiff measures what DateAdd added, for every unit |
| DateLib.DiffMeasures | runtime/include/ebasic/runtime/datetimelib.hpp:180-200 | between any two valid dates at any times of day, years and months are the boundaries crossed, and the other units measure what, added to the start, gives the end |
| DateLib.OtherUnits | runtime/include/ebasic/runtime/datetimelib.hpp:146-200 | a code that is no unit counts days and adds nothing |
| DateLib.AddTakes | runtime/include/ebasic/runtime/datetimelib.hpp:146-178 | of any number of years or months the fraction is dropped toward zero; of the other units it counts, by 24 hours, 60 minutes and 60 seconds |
| DateLib.MonthsThereAndBack | runtime/include/ebasic/runtime/datetimelib.hpp:151-173 | going back by as many months restores the serial if and only if the day was not cut |
| DateLib.SerialRoundTrip | runtime/include/ebasic/runtime/datetimelib.hpp:99-117 | a serial made of a valid date and a time of day reads back as that date |
| DateLib.WeekdayCycles | runtime/include/ebasic/runtime/datetimelib.hpp:132-138 | the weekday advances by one each day, before 1970 too, from a Thursday on 1970-01-01 |
| Argv.CommandLineRoundTrip | compiler/src/driver/process.cpp:46-95 | the child sees exactly the NUL-free arguments passed, if and only if its program name is plain |
| Argv.ScanQuoted | compiler/src/driver/process.cpp:60-84 | the C runtime reads a quoted argument back as the argument, whatever its backslashes and quotes |
| Argv.TailRoundTrip | compiler/src/driver/process.cpp:88-95 | all arguments after the program name are read back |
| Argv.ProgramExactly | compiler/src/driver/process.cpp:60-84 | a program name survives exactly when it has no quote and, if it is put in quotes, does not end in a backslash |
| Argv.QuoteArgvArgument | compiler/src/driver/process.cpp:60-84 | the loop writes the specified quoting |
| Argv.BuildCommandLine | compiler/src/driver/process.cpp:88-95 | the loop joins the quoted arguments |

## Left out

Of the compiler:

- The layout of emitted C++ text: emitted code is a tree, and expressions are any functions of the store that may change it, so the order of evaluation inside one expression is part of what is given.
- DIM, arrays, user labels and GOTO, GOSUB, coroutines, calling conventions and EXTERN: they rest on C++ scoping and ABI rules that the repository does not define. PRINT, calls and assignments are one kind of statement with any effect.
- Generics: their bodies are checked with the caller's loops still on the analyser's stack (compiler/src/sema/sema.cpp:1062-1064), so analyser and generator need not agree on them.
- A CASE ELSE that is not last: the model's SELECT has at most one, at the end.
- ControlFlow.AcceptedProcPreserved: does not cover user names that meet generated ones; Names.CollisionExactly says which these are.
- ControlFlow.DivergeTogether: does not model an expression that itself never returns.
- TypeOrder.TypeGenerator.GenTypes: assumes that declared names differ; does not model the forward declarations that precede all definitions, nor the text inside a definition.
- Statements.StatementParser.ParseStatement: does not build the tree of the statement, nor say where within a line an error is reported; the expression parser is complete.
- Statements.StatementParser.ParseModule: that a correct text is taken without a report is stated for control flow, SUB and FUNCTION with plain parameters, and simple statements, not for ENUM, TYPE, UNION, NAMESPACE, EXTERN, REDIM, CONST with a type, arrays, targets that are members or elements, default values and calling conventions.
- Source locations, and the text of documentation comments.
- Exits.Sema.CheckProc: of the checks on a statement only those on EXIT are modelled; types and symbols are not.

Of the package manager:

- Processes, git, the file system and the reading of manifests: these are functions of a world that is given; requirement strings are parsed when a manifest enters the model, not when its dependency is visited.
- LockedRebuild.RebuildRepeats: takes for granted that a fetched commit is named and fixes its tree, and that index entries name their source.
- LockedRebuild.RebuildFromLockfile: requires that names are unique and equal to those in dependencies, that all dependencies on a package find it by the same kind of edge at the same commit, and that written values have no control characters; LockedRebuild.RebuildRepeatsExactly and LockedRebuild.KeepsCommitExactly say what holds without.
- Acyclic.ResolvesIffAcyclic: requires that what is reachable can be had and that requirements on one registry name choose alike, since otherwise which version the graph has depends on the walk; Acyclic.CircularMeansClosedPath has no such condition.
- Lockfile.LockfileRoundTrip: its reader covers the part of TOML that such files use: comment, header, bare keys and basic strings without Unicode escapes.
- SemVer.ParsedIsProper: does not model numbers too large for an `int`, on which the source throws.
- The order of link flags: the collected set is what matters, and the walk is a preorder.

Of the preprocessor:

- Diagnostics of malformed directives, `#print`, `#error` and `#assert` texts: they change neither output nor macros. Structure errors are counted.
- Directives.ChainRuns: the branches are one ordinary line each; Conditionals.ExpansionIsTree is about branches of any kind.
- Conditions.ConditionMeans: excludes conditions in which a name outside `defined` is a macro's, since that is expanded before it is read, like any text.
- MacroCalls.CallMeansFilled: the body is one line, and the parts of it that name no parameter are text without `#`, comments or open strings.
- Conditionals.ExpansionIsTree: compares output, map and tables, not diagnostics, since the expander also evaluates conditions in branches that do not run.
- Preprocessor.SourceExpander.ExpandSource: takes a bound on how deep block macros nest, which the source does not have; a block macro that calls itself exhausts the real stack.
- MacroBodies.StringizedReadsBack: the text before `#p` in the line has its strings closed and names no parameter, so that it stays as it is; so in MacroBodies.ConcatJoins.
- PpExprMeaning.EvaluatesToMeaning: numbers are unbounded; 64-bit overflow, on which the source throws or is undefined, is not modelled.
- PpExprMeaning.EvalPrinted: excludes names spelled `not`, which the grammar reads as the operator where an operand of AND or OR may begin.
- Bytes outside ASCII are characters like any other.

Of the runtime:

- DateLib.MoveMonthsLands: serials are exact reals, and years are unbounded; rounding of doubles and 64-bit overflow are not modelled.
- DateLib.DiffUndoesAdd: serials are exact reals, so the rounding of doubles in the hour, minute and second cases is not modelled; so in DateLib.DiffMeasures and DateLib.AddTakes.
- DateLib.SerialRoundTrip: requires a valid date, as the source leaves others unspecified.
- `Hour`, `Minute`, `Second`, `TimeSerial`, `Now` and `Timer`: rounding and clocks.
- Argv.CommandLineRoundTrip: arguments with NUL cannot be passed at all and are excluded.
