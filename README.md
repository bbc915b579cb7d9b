# Clean Architecture solution generator — a verified model of its core

The generator is a .NET console tool that scaffolds a Clean Architecture solution:
the user names the solution and its base namespace, picks a target framework,
the layers (SharedKernel, Domain, Application, Infrastructure, API), an API style
(Web API, minimal API or gRPC) and a few options, and the tool creates one project
per layer, writes the `.sln` file, wires the project references and adds optional
pieces (Entity Framework Core, tests, a README).

This project models the tool's core in Dafny and proves properties of it:

- `Models` — the layer and API-style enums, `SolutionConfiguration` and
  `LayerDefinition` (`models.dfy`).
- `DependencyValidator` — the dependency rules between layers, the default
  references of each layer, the depth-first cycle search and the rule check that
  reports every violation (`dependency_validator.dfy`).
- `LayerConfiguration` — the built-in table of layer definitions
  (`layer_configuration.dfy`).
- `InputValidator` — the checks on the solution name, the namespace and the
  framework moniker, with both regular expressions written out as recognisers
  and proved equal to plain descriptions of the accepted languages
  (`input_validator.dfy`).
- `ProjectReferences` — the reference step: the SharedKernel injection, the
  dependency check and the loop that writes `<ProjectReference>` items into the
  project files (`project_references.dfy`).
- `SolutionGenerator` — the solution template, the gRPC folder rename, the
  boilerplate-file filter, the Entity Framework package insertion, the layer
  ordering used when listing projects and the README layer descriptions
  (`solution_generator.dfy`).
- `SolutionFile` — adding the generated projects to the `.sln` file: folder
  entries, project entries, configuration lines and the `NestedProjects`
  section (`solution_file.dfy`).
- `TestProject` — adding a test project to the `.sln` file (`test_project.dfy`).
- `Outcomes`, `Text`, `Environment` — the shared result types (an exception is a
  value), the .NET string operations the code uses (`Contains`, `IndexOf`,
  `LastIndexOf`, `Insert`, `Replace`, `string.Join`) and the platform as values:
  a file system as a map from path to text, `System.IO.Path` as given functions,
  and `Guid.NewGuid` as an endless supply of tokens.

Operations that can throw return an `Outcome`, so every error path of the source
(missing dictionary key, missing file, missing `Global` section, `String.Insert`
at -1) is part of a contract rather than a precondition. The step functions that
edit file text are the specification; the imperative methods that mirror the
source's statement order are proved to compute exactly them.

## Model

| member | source | states |
|---|---|---|
| Models.LayerTypeDeclaration | CleanArchitectureGenerator/Models/SolutionConfiguration.cs:16-23 | The enum has exactly five values, in declaration order SharedKernel < Domain < Application < Infrastructure < API, with distinct names. |
| InputValidator.FreshConfigurationAnswers | CleanArchitectureGenerator/Models/SolutionConfiguration.cs:5-13 | A fresh configuration has an empty solution name and namespace, which the validators reject with their "cannot be empty" messages, and the default framework `net9.0`, which is accepted. |
| InputValidator.ValidationResultFactories | CleanArchitectureGenerator/Services/InputValidator.cs:56-69 | A success is valid with no message; a failure is invalid and carries exactly its message; the two never coincide. |
| InputValidator.MatchNameIsDottedIdentifier | CleanArchitectureGenerator/Services/InputValidator.cs:7 | The recogniser of the name pattern accepts exactly the dot-separated lists of segments that start with an ASCII letter and go on with letters, digits or `_`. |
| InputValidator.AcceptedNameIsMatch | CleanArchitectureGenerator/Services/InputValidator.cs:7 | The pattern with its end anchor matches exactly the accepted names (a dotted identifier, optionally followed by one line feed); an accepted name is never blank. |
| InputValidator.ValidateSolutionName | CleanArchitectureGenerator/Services/InputValidator.cs:9-22 | Valid iff the name is present and accepted; a null or blank name gets the "empty" message, any other rejected name the "valid identifier" message. |
| InputValidator.ValidateNamespace | CleanArchitectureGenerator/Services/InputValidator.cs:24-37 | Valid iff the namespace is present and accepted; blank gets the "empty" message, otherwise the ".NET namespace" message. |
| InputValidator.NamespaceAcceptsSolutionNames | CleanArchitectureGenerator/Services/InputValidator.cs:9-37 | Both checks accept exactly the same inputs. |
| InputValidator.MatchVersionIsMoniker | CleanArchitectureGenerator/Services/InputValidator.cs:47 | The recogniser of `net` digits `.` digits accepts exactly `net`, one or more decimal digits, a dot and one or more decimal digits. |
| InputValidator.VersionRegexIsMoniker | CleanArchitectureGenerator/Services/InputValidator.cs:47 | The anchored pattern matches exactly the monikers, optionally followed by one line feed; a match is never blank. |
| InputValidator.ValidateDotNetVersion | CleanArchitectureGenerator/Services/InputValidator.cs:39-53 | Valid iff the version is present and accepted; blank gets the "empty" message, otherwise the "format 'netX.Y'" message. |
| InputValidator.NameAcceptedExamples | CleanArchitectureGenerator/Services/InputValidator.cs:7-22 | `Company.Product` is a valid solution name. |
| InputValidator.TrailingLineFeedAccepted | CleanArchitectureGenerator/Services/InputValidator.cs:7 | `Company.Product` followed by a line feed passes, because `$` also matches before a final line feed. |
| InputValidator.LeadingDigitRejected | CleanArchitectureGenerator/Services/InputValidator.cs:16-18 | A name starting with a digit gets the format message. |
| InputValidator.EmptySegmentRejected | CleanArchitectureGenerator/Services/InputValidator.cs:31-33 | `A..B` gets the namespace format message. |
| InputValidator.BlankNameRejected | CleanArchitectureGenerator/Services/InputValidator.cs:11-14 | Null and all-blank names get the "empty" message. |
| InputValidator.VersionExamples | CleanArchitectureGenerator/Services/InputValidator.cs:39-53 | `net9.0` and `net10.0` pass; `net9` and `NET9.0` fail; null gets the "empty" message. |
| DependencyValidator.AllowedDependencies | CleanArchitectureGenerator/Services/DependencyValidator.cs:83-116 | The full rule table: Domain may reference SharedKernel, Application Domain or SharedKernel, Infrastructure and API only Application, nothing else; no layer may reference itself. |
| DependencyValidator.IsValidDependency | CleanArchitectureGenerator/Services/DependencyValidator.cs:83-116 | Every allowed reference points to a strictly lower layer in declaration order, and no layer may reference Infrastructure or API. |
| DependencyValidator.GetExpectedDependencies | CleanArchitectureGenerator/Services/DependencyValidator.cs:121-132 | Every default reference is allowed, there is at most one and no repeats, SharedKernel and Domain have none, and none is SharedKernel. |
| DependencyValidator.HasCycle | CleanArchitectureGenerator/Services/DependencyValidator.cs:152-179 | `true` only when the graph has a directed cycle; a throw only on a dependency that is not a key; `false` leaves the recursion stack as it was, keeps the search's visited/stack invariant and finishes the layer after all its dependencies. |
| DependencyValidator.HasCircularDependencies | CleanArchitectureGenerator/Services/DependencyValidator.cs:134-150 | When every dependency is a key, it returns and answers exactly whether the graph has a directed cycle; it throws only on a missing key, and never answers `false` for a graph with a cycle or a missing key. |
| DependencyValidator.RankedGraphIsAcyclic | CleanArchitectureGenerator/Services/DependencyValidator.cs:134-179 | A graph whose edges all lower some rank has no cycle. |
| DependencyValidator.AllowedEdgesAreAcyclic | CleanArchitectureGenerator/Services/DependencyValidator.cs:66-70 | A table whose references all obey the rules has no cycle, so rule 6 cannot fire once rules 1 to 5 pass. |
| DependencyValidator.FinishedGraphIsAcyclic | CleanArchitectureGenerator/Services/DependencyValidator.cs:165-178 | A finish order covering every key proves the graph closed and acyclic. |
| DependencyValidator.ReportedIsInvalid | CleanArchitectureGenerator/Services/DependencyValidator.cs:24-64 | Each rule's filter reports exactly the references the rule table forbids. |
| DependencyValidator.ReportedDependencies | CleanArchitectureGenerator/Services/DependencyValidator.cs:36 | A layer's reported list holds exactly its dependencies that its rule reports. |
| DependencyValidator.LayerNames | CleanArchitectureGenerator/Services/DependencyValidator.cs:30 | The interpolated list has one name per layer, in order. |
| DependencyValidator.RuleViolationFires | CleanArchitectureGenerator/Services/DependencyValidator.cs:24-64 | A rule adds a line iff its layer has a definition with a forbidden reference. |
| DependencyValidator.NoViolations | CleanArchitectureGenerator/Services/DependencyValidator.cs:19-72 | No violation is recorded iff none of the five rules fires and there is no cycle. |
| DependencyValidator.AllowedIffNoRuleFires | CleanArchitectureGenerator/Services/DependencyValidator.cs:24-64 | Every reference in the table is allowed iff none of rules 1 to 5 fires. |
| DependencyValidator.RulesResultIsValid | CleanArchitectureGenerator/Services/DependencyValidator.cs:72-77 | The check passes iff every reference is allowed and there is no cycle; a failure's message is the violations joined with line feeds. |
| DependencyValidator.ForbiddenReferenceIsReported | CleanArchitectureGenerator/Services/DependencyValidator.cs:24-74 | A forbidden reference makes the failure message contain its rule's text and the offending layer's name. |
| DependencyValidator.ValidateDependencyRules | CleanArchitectureGenerator/Services/DependencyValidator.cs:17-78 | Throws `KeyNotFound` when Domain, Application, Infrastructure or API has no definition; with those and every dependency a key, returns the rule check of the table, valid iff every reference is allowed; a throw means a missing key; a table with a missing dependency key that still returns is reported invalid. |
| LayerConfiguration.GetLayerDefinitions | CleanArchitectureGenerator/Services/LayerConfigurationService.cs:7-89 | Entries for Domain, Application, Infrastructure and API only, each filed under its own type and listing exactly the default references the rules expect of it. |
| LayerConfiguration.LayerDefinitionsShape | CleanArchitectureGenerator/Services/LayerConfigurationService.cs:7-89 | Four entries (Domain, Application, Infrastructure, API) and no SharedKernel; each filed under its own type, only Domain mandatory, only API a `webapi` project, each with the default references of `GetExpectedDependencies`, with 8, 6, 6 and 5 distinct folders. |
| LayerConfiguration.LayerDefinitionsPassRules | CleanArchitectureGenerator/Services/LayerConfigurationService.cs:7-89 | The built-in table has the required keys, names only its own keys, obeys every rule, has no cycle and passes the rule check. |
| LayerConfiguration.GetLayerDefinitionsWithSharedKernel | CleanArchitectureGenerator/Services/LayerConfigurationService.cs:7-89 | The corrected table keeps every built-in entry unchanged. |
| LayerConfiguration.LayerDefinitionsWithSharedKernelPassRules | CleanArchitectureGenerator/Services/LayerConfigurationService.cs:7-89 | The corrected table holds every layer under its own type, and still passes every rule with no cycle. |
| ProjectReferences.InjectSharedKernel | CleanArchitectureGenerator/Services/SolutionGenerator.cs:406-428 | Without SharedKernel selected the table comes back as it is; a throw is always `KeyNotFound`; a result has the same keys. |
| ProjectReferences.InjectSharedKernelEffect | CleanArchitectureGenerator/Services/SolutionGenerator.cs:406-428 | The SharedKernel step throws iff a layer it must update has no definition; otherwise the keys and every field but the dependencies stay, selected Domain and Application get SharedKernel appended once if missing, and every other list is untouched. |
| ProjectReferences.InjectSharedKernelIdempotent | CleanArchitectureGenerator/Services/SolutionGenerator.cs:406-428 | Running the step on its own result changes nothing. |
| ProjectReferences.InjectSharedKernelKeepsRules | CleanArchitectureGenerator/Services/SolutionGenerator.cs:406-428 | The step keeps a table rule-abiding, keeps the required keys, and keeps it closed when SharedKernel has a definition. |
| ProjectReferences.SharedKernelSelectionFails | CleanArchitectureGenerator/Services/SolutionGenerator.cs:406-435 | With the built-in table, selecting SharedKernel and Domain succeeds in the SharedKernel step but leaves a table that names a layer it does not hold, so it is not closed and the condition under which the dependency check passes (required keys, closed, every reference allowed) is false. |
| ProjectReferences.SharedKernelSelectionThrows | CleanArchitectureGenerator/Services/SolutionGenerator.cs:402-435 | With the built-in table, the whole reference step throws whenever SharedKernel and Domain are both selected, leaving every file as it was. |
| ProjectReferences.SharedKernelSelectionPasses | CleanArchitectureGenerator/Services/SolutionGenerator.cs:406-435 | With the corrected table, every selection passes the SharedKernel step and the dependency check. |
| ProjectReferences.AddReferenceEffect | CleanArchitectureGenerator/Services/SolutionGenerator.cs:477-487 | A project file that ends its project then holds the reference element and still ends its project; a file without `</Project>` or with the element already is left alone. |
| ProjectReferences.AddReferenceIdempotent | CleanArchitectureGenerator/Services/SolutionGenerator.cs:477-487 | Writing the same reference twice gives the text of writing it once. |
| ProjectReferences.AddReferenceKeepsTag | CleanArchitectureGenerator/Services/SolutionGenerator.cs:481-485 | A reference element already written survives every later reference step. |
| ProjectReferences.AddReferenceWritesOnlyItsTag | CleanArchitectureGenerator/Services/SolutionGenerator.cs:477-487 | A reference step writes no element but its own: if a file lacked the element for some path without `<` and holds it afterwards, that path is the one written (given written paths with no `<` or `"`). |
| ProjectReferences.WriteReference | CleanArchitectureGenerator/Services/SolutionGenerator.cs:478-487 | Throws `FileNotFound` iff the project file is missing, leaving the files alone; otherwise exactly that file gets the reference step. |
| ProjectReferences.AddOneReference | CleanArchitectureGenerator/Services/SolutionGenerator.cs:468-488 | Throws iff the dependency has no project path (`KeyNotFound`) or the layer's project file is missing (`FileNotFound`), leaving the files as they were; on return the new file system is the old one with exactly the layer's project file replaced by its reference step for the dependency's relative path; references and project ends are kept and the file then holds the reference. |
| ProjectReferences.AddDependencyReferences | CleanArchitectureGenerator/Services/SolutionGenerator.cs:460-489 | The result and the new file system are exactly the inner-loop fold `DependencySteps`: unselected dependencies are skipped, a missing project path or file throws with the writes made so far kept, and each selected dependency adds its reference step to the layer's project file; only that file changes, no reference or project end is lost, and on return every selected dependency is referenced. |
| ProjectReferences.DependencyStepsKeep | CleanArchitectureGenerator/Services/SolutionGenerator.cs:468-488 | The inner loop keeps every reference element and project end and changes no file but the layer's project file, whether it returns or throws. |
| ProjectReferences.DependencyStepsReference | CleanArchitectureGenerator/Services/SolutionGenerator.cs:468-488 | When the inner loop returns, the layer's project file references every selected dependency. |
| ProjectReferences.DependencyStepsWriteOnlySelected | CleanArchitectureGenerator/Services/SolutionGenerator.cs:468-488 | The inner loop writes only where the source does: a reference element a file lacked and now holds is in the layer's project file and names the project of one of the layer's selected dependencies. |
| ProjectReferences.SelectedStepsWriteOnlySelected | CleanArchitectureGenerator/Services/SolutionGenerator.cs:437-490 | The loop over the layers writes only where the source does: a reference element a file lacked and now holds was written into some processed layer's own project file and names the project of a selected layer that layer depends on. |
| ProjectReferences.CriticalChecksPass | CleanArchitectureGenerator/Services/SolutionGenerator.cs:444-466 | After a passed dependency check, SharedKernel has no references, Domain none but SharedKernel and every reference is allowed, so the three CRITICAL throws cannot happen. |
| ProjectReferences.AddLayerReferences | CleanArchitectureGenerator/Services/SolutionGenerator.cs:437-490 | One layer: the result and new file system are exactly `LayerStep` (missing definition or project path throws `KeyNotFound`, then the inner loop); only its project file changes, nothing is lost, and on return it references every selected dependency. |
| ProjectReferences.AddSharedKernelReferences | CleanArchitectureGenerator/Services/SolutionGenerator.cs:406-428 | The in-order updates compute the SharedKernel step; when Application is missing, Domain's update has already been made. |
| ProjectReferences.AddSelectedReferences | CleanArchitectureGenerator/Services/SolutionGenerator.cs:437-490 | Over all selected layers: the result and new file system are exactly the fold `SelectedSteps`, which stops at the first throw with the writes so far; only selected project files change, no reference or project end is lost, and on return each selected layer's file references each of its selected dependencies. |
| ProjectReferences.AddProjectReferences | CleanArchitectureGenerator/Services/SolutionGenerator.cs:402-493 | Throws `KeyNotFound` with files untouched when the SharedKernel step does; a failed rule check throws the "Dependency rule violation" message with its violations and leaves the files; a passed check gives exactly the fold `SelectedSteps` over the updated table; on return the table passes the rules with no cycle and every selected layer's project references its selected dependencies. |
| SolutionGenerator.SolutionTemplateGlobal | CleanArchitectureGenerator/Services/SolutionGenerator.cs:97-111 | The template's first `Global` starts the `Global` line right after the header. |
| SolutionGenerator.SolutionTemplateSections | CleanArchitectureGenerator/Services/SolutionGenerator.cs:97-111 | The template has a project-configuration section with an `EndGlobalSection` and ends with `EndGlobal`. |
| SolutionGenerator.FoldersToCreate | CleanArchitectureGenerator/Services/SolutionGenerator.cs:328-350 | One folder per definition folder; only an API project under gRPC is touched, a folder whose name does not mention `Controllers` is kept as it is, and each one that does then mentions `Services`. |
| SolutionGenerator.BoilerplateFiles | CleanArchitectureGenerator/Services/SolutionGenerator.cs:370-387 | A listed file is deleted iff its name starts with `Class`, or starts with `Program` in a non-API project. |
| SolutionGenerator.IsBoilerplate | CleanArchitectureGenerator/Services/SolutionGenerator.cs:373-386 | A `Class…` file always goes; nothing goes whose name starts with neither `Class` nor `Program`; the API project keeps its `Program…` files, every other project deletes them. |
| SolutionGenerator.BoilerplateExamples | CleanArchitectureGenerator/Services/SolutionGenerator.cs:370-386 | `Class1.cs` always goes, `Program.cs` goes iff the project is not the API, other files stay. |
| SolutionGenerator.RemoveBoilerplateFiles | CleanArchitectureGenerator/Services/SolutionGenerator.cs:364-392 | Exactly the listed boilerplate files disappear, every other file keeps its text, and the count is the number of files selected. |
| SolutionGenerator.EfCorePackagesAdded | CleanArchitectureGenerator/Services/SolutionGenerator.cs:695-702 | A project with a `</PropertyGroup>` and no EF Core then references both packages; a project without one is untouched; the step is idempotent. |
| SolutionGenerator.AddEfCorePackages | CleanArchitectureGenerator/Services/SolutionGenerator.cs:695-702 | A project file that already mentions Entity Framework Core, or has no `</PropertyGroup>`, is left exactly as it is. |
| SolutionGenerator.Lookup | CleanArchitectureGenerator/Services/SolutionGenerator.cs:440 | The dictionary indexer returns a value stored under the key and throws `KeyNotFound` iff there is none. |
| SolutionGenerator.RankIsDeclarationOrder | CleanArchitectureGenerator/Services/SolutionGenerator.cs:518-522 | The sort key equals the enum's declaration order, so no two layers share one. |
| SolutionGenerator.OrderByRank | CleanArchitectureGenerator/Services/SolutionGenerator.cs:518-523 | The sorted list is ordered by the key and is a permutation of the dictionary's entries. |
| SolutionGenerator.OrderByRankIgnoresInsertionOrder | CleanArchitectureGenerator/Services/SolutionGenerator.cs:518-523 | The processing order depends only on which layers have projects, not on the order the dictionary was filled. |
| SolutionGenerator.OrderByRankAscends | CleanArchitectureGenerator/Services/SolutionGenerator.cs:518-523 | Projects come out in strictly ascending layer order, each layer at most once. |
| SolutionGenerator.SortedArrangementIsUnique | CleanArchitectureGenerator/Services/SolutionGenerator.cs:518-523 | Two key-sorted lists with unique keys and the same entries are equal. |
| SolutionGenerator.LayerDescriptionsDistinct | CleanArchitectureGenerator/Services/SolutionGenerator.cs:1128-1139 | `GetLayerDescription` gives every layer its own non-empty description. |
| SolutionFile.NewCandidatesAreUnlisted | CleanArchitectureGenerator/Services/SolutionGenerator.cs:525-538 | Every project added is one of the dictionary's projects and is not yet listed by name or path. |
| SolutionFile.UnlistedAreNew | CleanArchitectureGenerator/Services/SolutionGenerator.cs:525-538 | Every dictionary project the file does not list is added. |
| SolutionFile.ProjectEntriesShape | CleanArchitectureGenerator/Services/SolutionGenerator.cs:540-544 | Each new project gets exactly one C# project line, in order, with the next GUID, followed by `EndProject`. |
| SolutionFile.NestingLinesShape | CleanArchitectureGenerator/Services/SolutionGenerator.cs:546-547 | Each new project gets one nesting line that places its GUID in the src folder. |
| SolutionFile.PutEffect | CleanArchitectureGenerator/Services/SolutionGenerator.cs:540 | The dictionary assignment adds a new key at the end or overwrites the existing key's value in place, keeping keys unique. |
| SolutionFile.GuidsByNameShape | CleanArchitectureGenerator/Services/SolutionGenerator.cs:540-542 | The name-to-GUID dictionary has unique keys and holds every new project's name. |
| SolutionFile.GuidsByNameDistinct | CleanArchitectureGenerator/Services/SolutionGenerator.cs:540-542 | With distinct names, entry `i` is the `i`-th project's name with its own GUID. |
| SolutionFile.ConfigEntriesShape | CleanArchitectureGenerator/Services/SolutionGenerator.cs:568-575 | Four configuration lines per dictionary entry, in order. |
| SolutionFile.SectionsWritten | CleanArchitectureGenerator/Services/SolutionGenerator.cs:556-587 | The writes throw iff the file has no `Global`, with the "missing 'Global' section" message. |
| SolutionFile.ProjectsAdded | CleanArchitectureGenerator/Services/SolutionGenerator.cs:495-591 | Adding the projects fails exactly when the file has no `Global` line, with the "missing 'Global' section" error. |
| SolutionFile.WithProjectsListsEntries | CleanArchitectureGenerator/Services/SolutionGenerator.cs:503-565 | A file with `Global` gets the src folder entry, the tests folder entry when tests are wanted, and every new project's entry with its GUID. |
| SolutionFile.WithProjectsListsConfigurations | CleanArchitectureGenerator/Services/SolutionGenerator.cs:567-578 | When the first `Global` precedes the first `EndGlobalSection`, every dictionary entry's four configuration lines are written. |
| SolutionFile.WithProjectsConfiguresEachProject | CleanArchitectureGenerator/Services/SolutionGenerator.cs:540-578 | With distinct project names, every new project gets the four configuration lines of its own GUID. |
| SolutionFile.WithProjectsNestsProjects | CleanArchitectureGenerator/Services/SolutionGenerator.cs:580-587 | Every new project is nested into the src folder. |
| SolutionFile.AddProjectsToSolution | CleanArchitectureGenerator/Services/SolutionGenerator.cs:495-591 | A missing file throws `FileNotFound`; otherwise it throws iff the file has no `Global`; on return the file holds exactly the text the specification describes; the GUIDs drawn are two for the folders, one per new project and one for the nesting section. |
| SolutionFile.SolutionText | CleanArchitectureGenerator/Services/SolutionGenerator.cs:497-587 | The imperative body computes exactly the specified text and draws the stated number of GUIDs. |
| SolutionFile.SolutionEntries | CleanArchitectureGenerator/Services/SolutionGenerator.cs:498-548 | The loop builds exactly the planned entries, name-to-GUID dictionary and nesting lines. |
| SolutionFile.WriteSections | CleanArchitectureGenerator/Services/SolutionGenerator.cs:556-587 | The writes compute exactly the specified text, drawing one GUID for a nesting section. |
| TestProject.TestProjectAddedFails | CleanArchitectureGenerator/Services/SolutionGenerator.cs:620-643 | No `Global`: `ArgumentOutOfRange` when the tests folder must be created, otherwise the "missing 'Global' section" error; `Global` but no `EndGlobalSection`: the "missing 'EndGlobalSection'" error. |
| TestProject.TestProjectAdded | CleanArchitectureGenerator/Services/SolutionGenerator.cs:607-665 | The only failures are `ArgumentOutOfRange`, a missing `Global` and a missing `EndGlobalSection`; a file without `Global` always fails, with `ArgumentOutOfRange` when the tests folder has to be created and the missing-`Global` error otherwise. |
| TestProject.TestProjectAddedLists | CleanArchitectureGenerator/Services/SolutionGenerator.cs:607-646 | When the first `Global` precedes the first `EndGlobalSection`, the call succeeds and the file holds the project's entry, the tests folder's entry when it was missing, and the project's four configuration lines. |
| TestProject.TestProjectListedAfter | CleanArchitectureGenerator/Services/SolutionGenerator.cs:597-605 | After the call the file lists the test project by name, so a second call leaves it alone. |
| TestProject.TestNestingEffect | CleanArchitectureGenerator/Services/SolutionGenerator.cs:648-665 | Without a `NestedProjects` section a new one holding the nesting line is written; with one, the line goes before the next `EndGlobalSection`; with one and no `EndGlobalSection` after it, nothing changes. |
| TestProject.AddTestProjectToSolution | CleanArchitectureGenerator/Services/SolutionGenerator.cs:593-668 | A missing file throws `FileNotFound`; a project already listed by name or file name leaves everything alone; otherwise the file gets exactly the specified text or the call throws its exception, drawing one GUID, two when the tests folder is created. |
| TestProject.TestProjectText | CleanArchitectureGenerator/Services/SolutionGenerator.cs:607-665 | The imperative body computes exactly the specified text or exception and draws one or two GUIDs. |
| TestProject.AddTestNesting | CleanArchitectureGenerator/Services/SolutionGenerator.cs:648-665 | The branchy update computes exactly the nesting step. |
| TestProject.TestEntrySplitsGlobalNamedProject | CleanArchitectureGenerator/Services/SolutionGenerator.cs:627-636 | As written, when a listed project's name starts with `Global`, the test project's entry is inserted inside that project's line, which no longer stands where it stood. |
| TestProject.GlobalLineIndex | CleanArchitectureGenerator/Services/SolutionGenerator.cs:627-632 | The position of the first `Global` that starts a line: no earlier `Global` starts a line, and -1 iff no line starts with `Global`. |
| TestProject.EntryAtLineKeepsLines | CleanArchitectureGenerator/Services/SolutionGenerator.cs:627-636 | The corrected insertion keeps every line-free text that occurred in the file. |
| TestProject.EntryAtLineKeepsGlobalNamedProject | CleanArchitectureGenerator/Services/SolutionGenerator.cs:627-636 | On the file of the finding, the corrected insertion leaves the project's line intact. |

## Left out

- Console output, `async`/`await`, directory creation, `.gitkeep` files and running `dotnet` (project creation, `dotnet sln`, restore): effects outside the edited text; `CreateProjectAsync`, the CQRS and the rest of the Entity Framework placeholders, test project creation beyond its solution entry, configuration artifacts and the README text beyond the layer descriptions are not part of this model.
- `System.IO.Path` (`Combine`, `GetRelativePath`, `GetFileName`, `GetDirectoryName`) is taken as given functions: how paths are split and joined is the platform's.
- `Guid.NewGuid` and GUID text: a GUID is a token from a supply; the content lemmas assume tokens of hex digits and dashes (no tab, brace, quote, `<`, line break or capital `G`), which is what the default GUID format produces.
- SolutionFile.ConfigEntries: the dictionary's enumeration order is taken to be insertion order with in-place overwrite, which the current runtime does but does not promise.
- DependencyValidator.HasCircularDependencies: the keys are searched in any order, since dictionary key order is not promised; the contract holds for every order.
- TestProject.AddTestProjectToSolution: the regular expression that finds the `tests` folder and `Guid.Parse` of its capture are a parameter returning the folder's GUID text; a `FormatException` from a malformed capture is not modelled.
- SolutionFile.SolutionEntries: the early return when no entries were built cannot happen (the src folder entry is always there) and is not modelled as a separate path.
- SolutionFile.WithProjectsListsEntries, TestProject.TestProjectAddedLists: the content lemmas assume project names and paths without tabs, and (for configuration and nesting lines) a file whose first `Global` comes before its first `EndGlobalSection`, as the generated template has.
- SolutionFile.AddConfigSection: the configuration lines and the `NestedProjects` section are written before every `EndGlobalSection` (the template has three), as the source does.
- The template is modelled with line feeds only, as the verbatim string in the source file gives it.
- Strings are sequences of Dafny `char`, which are Unicode scalar values rather than the UTF-16 code units of .NET strings; the two agree on every character the generator writes or searches for, but a surrogate pair in an input name is one character here and two in .NET.
- SolutionGenerator.IsBoilerplate: the source's `StartsWith("Class")` and `StartsWith("Program")` are culture-sensitive comparisons under the current culture; the model uses an ordinal prefix test, which agrees with them on ASCII file names.
- ProjectReferences.DependencyStepsWriteOnlySelected, ProjectReferences.SelectedStepsWriteOnlySelected, ProjectReferences.AddReferenceWritesOnlyItsTag: "only selected references are written" is proved for relative paths without `<` or `"` (written and looked-for alike), which holds for generated project paths; a path with those characters could make one element's text appear inside another's.
- ProjectReferences.AddProjectReferences: the source updates the shared `LayerDefinition` objects in place; the model returns the updated table, so aliasing with the caller's dictionary is captured only through that result.

## Findings

| source | as written | input that shows it | evidently intended | confidence | as-written member | corrected member |
|---|---|---|---|---|---|---|
| CleanArchitectureGenerator/Services/LayerConfigurationService.cs:7-89 | The table has no SharedKernel entry, so `layerDefinitions[layer]` throws for it and the injected SharedKernel reference names a missing key | SelectedLayers = [SharedKernel, Domain] | A SharedKernel definition (optional class library with no references) | high; not executed | ProjectReferences.SharedKernelSelectionFails | LayerConfiguration.GetLayerDefinitionsWithSharedKernel, ProjectReferences.SharedKernelSelectionPasses |
| CleanArchitectureGenerator/Services/SolutionGenerator.cs:628 | `IndexOf("Global")` finds the first occurrence anywhere, including inside a project name (line 622 places the tests folder's entry by the same search; the corrected member covers the project entry of line 628) | a solution named `GlobalShop` with tests: the test project's entry is inserted inside the `GlobalShop.Domain` project line | Insert before the `Global` line that opens the global block | high; not executed | TestProject.TestEntrySplitsGlobalNamedProject | TestProject.WithTestEntryAtLine, TestProject.EntryAtLineKeepsGlobalNamedProject |
