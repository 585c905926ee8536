# commit: configuration and template composition, in Dafny

`commit` keeps a family of repositories in shape from CI. Each project scope
is a `.commit` directory holding `config.yml`. Its configuration can pull in
groups of settings and templates from external repositories. Templates are
rendered into the project. Merged pull requests are collected into release
data for changelogs.

This project models the logic at the heart of that process:

- navigating the schema-less configuration through `Config`;
- discovering scopes below a root directory;
- merging external groups into a scope's settings and template list, where
  the scope and the groups it lists first win;
- registering changelog templates;
- resolving where each template is written;
- updating the release data from a pull-request event.

The modules follow the source files:

| module | models |
|---|---|
| `Values` | parsed YAML values, Ruby truthiness, `[]` with a string key, the exceptions the code can raise |
| `Paths` | the `File`/`Pathname` functions the code calls: basename, extname, join, dirname, split |
| `Sorting` | first-match search, sortedness and permutation, insertion sort as one admissible `sort`, `String#<=>` |
| `Configs` | `lib/commit/config.rb` |
| `Scopes` | `lib/commit/scope.rb` |
| `Workspace` | the checkout an operation works in: its data files, and the git commands and template generations it leaves behind, in order |
| `ExternalsInclude` | `lib/commit/operations/externals/include.rb` |
| `ChangelogsUpdate` | `lib/commit/operations/changelogs/update.rb` |
| `ChangelogsInclude` | `lib/commit/operations/changelogs/include.rb` |
| `TemplatesUpdate` | `lib/commit/operations/templates/update.rb` |
| `TemplatesGenerate` | `lib/commit/operations/templates/generate.rb` |

How Ruby behaviour is represented:

- Exceptions become `Result` values. A method sent to a value that lacks it
  is `NoMethodError`. Indexing an array or an integer with a string is
  `TypeError`.
- `Config#method_missing` takes exactly one argument. So any call with an
  argument on a Config raises `ArgumentError`, for example `include?`, `&`
  or `index` on `Config(nil)`.
- Calls with only a block, such as `map`, `find`, `each`, `any?` and `to_a`,
  are answered by `method_missing` with another Config, and the block never
  runs.
- The model keeps these consequences. An absent `includes` list raises once
  a group is examined. An absent `changelogs` list registers nothing.
- Operations that change state in place are methods on classes:
  - `Scopes.Scope` holds the live settings hash, which the include
    operations mutate.
  - `Workspace.Checkout` holds the data files and the log of effects.
- Each such method is proved against a specification function of the old
  state. The lemmas state what the code promises about that function.

## Model

| member | source | states |
|---|---|---|
| Values.Index | lib/commit/operations/templates/update.rb:55-56 | `v["key"]` succeeds exactly on a hash or a string. A hash gives the value under the key, or nil. A string gives the key when it occurs in the string, nil otherwise. Other values raise. |
| Paths.Basename | lib/commit/scope.rb:19 | The last component is non-empty for a non-empty path, and holds no slash unless it is "/". |
| Paths.Extname | lib/commit/operations/templates/update.rb:62 | The extension is a suffix of the basename that starts at its last dot. It is empty exactly when no dot follows the leading dots. |
| Paths.BasenameWithoutExt | lib/commit/operations/templates/update.rb:60 | Appending the extension gives back the basename. |
| Paths.PathJoin | lib/commit/operations/templates/generate.rb:12 | `Pathname#join`: an absolute second part replaces the directory. A relative one is appended after a single slash, or directly after a directory that already ends in one. |
| Paths.Dirname | lib/commit/scope.rb:23 | The directory part is never empty, and a path without a slash has "." as its directory. |
| Paths.Split | lib/commit/scope.rb:23 | `split("/")`: no piece contains a slash. |
| Paths.SplitRejoins | lib/commit/scope.rb:23 | Joining the pieces of `split("/")` with slashes gives back the path without its trailing slashes: the split loses only the trailing empty pieces Ruby drops. |
| Paths.DirnameAfterSlash | lib/commit/scope.rb:23 | The directory of "<head>/<name>", for a name without a slash, is the head without its trailing slashes. |
| Paths.JoinThenSplit | lib/commit/operations/templates/generate.rb:12 | Joining a plain name onto a directory and splitting the result again gives back that directory (less its trailing slashes) and that name. |
| Paths.BasenameOfFileJoin | lib/commit/operations/templates/update.rb:63 | Joining a plain file name onto any directory gives that name back as the basename. |
| Paths.DotfileHasNoExtension | lib/commit/operations/templates/update.rb:62 | A dot-file such as ".github" has an empty extension, and its name without extension is itself. |
| Sorting.FindFirst | lib/commit/operations/changelogs/update.rb:41-43 | `find`/`index`: the first position whose element satisfies the predicate, or none when no element does. |
| Sorting.Sort | lib/commit/operations/externals/include.rb:104-106 | The result is sorted by the comparator and is a permutation of the input. |
| Sorting.KeyOrderIsTotalPreorder | lib/commit/operations/externals/include.rb:104-106 | Comparing by an integer key (`index(a) <=> index(b)`) is a total preorder. |
| Sorting.StrLeTotal | lib/commit/operations/changelogs/update.rb:57 | Any two strings compare under `String#<=>`. |
| Sorting.StrLeTransitive | lib/commit/operations/changelogs/update.rb:57 | The string order is transitive. |
| Sorting.StrLeAntisymmetric | lib/commit/operations/changelogs/update.rb:57 | Strings that are each at most the other are equal. |
| Sorting.DescendingStrOrderIsTotalPreorder | lib/commit/operations/changelogs/update.rb:57 | Ordering by a string key, descending (`b <=> a`), is a total preorder. |
| Configs.Wrap | lib/commit/config.rb:38-49 | Never nil. A hash or nil becomes a Config, an array stays an array of the same length, and anything else comes back bare. |
| Configs.UnwrapWrap | lib/commit/config.rb:42-47 | Wrapping loses nothing: element by element, the wrapped value stands for the original. |
| Configs.Dig | lib/commit/config.rb:16 | `@settings&.dig(key)`: the value under the key, or nil for absent keys and nil settings. Arrays raise TypeError, scalars NoMethodError. |
| Configs.Get | lib/commit/config.rb:17-18 | The plain accessor fails exactly when `dig` does. Its result is never bare nil and stands for the raw value; nil comes back as `Config(nil)`. |
| Configs.MethodMissing | lib/commit/config.rb:12-20 | A name ending in "!" reads the raw value under the name without the "!". Any other name reads the wrapped value. |
| Configs.RespondToMissing | lib/commit/config.rb:22-24 | Answers true for every name. |
| Configs.RespondedNamesAreAnswered | lib/commit/config.rb:22-24 | For a Config over a hash or nil, every name it claims to answer is answered without an exception. |
| Configs.Equals | lib/commit/config.rb:26-35 | Equal to a Config iff the settings are equal. Equal to a hash iff it equals the settings. Never equal to anything else. |
| Configs.GetPath | lib/commit/config.rb:12-20 | A chain `config.k1...kn`: the empty chain is the config itself, and a successful chain never ends in bare nil. |
| Configs.RawPath | lib/commit/config.rb:15-16 | A chain ending in a bang accessor; with no plain steps it is `dig` itself. |
| Configs.MissingChainsStayNil | lib/commit/config.rb:16-18 | Plain accessors through missing keys never fail and keep yielding `Config(nil)`. A final bang accessor gives nil. |
| Configs.FollowAppend | lib/commit/config.rb:16 | Looking keys up one after another: a chain can be followed one key further iff the value reached is a hash or nil, and the next value is that value's entry under the key. |
| Configs.GetPathFollows | lib/commit/config.rb:12-20 | A chain of plain accessors on a hash or nil succeeds iff every value it passes through is a hash or nil. It then gives the wrapped nested value. |
| Configs.RawPathFollows | lib/commit/config.rb:15-20 | A chain ending in a bang accessor succeeds iff every value it passes through is a hash or nil. It then gives the raw nested value. |
| Scopes.Scope.constructor | lib/commit/scope.rb:36-40 | A scope keeps its path. Its configuration comes from "<path>/config.yml" and its data from "<path>/data". |
| Scopes.Filter | lib/commit/scope.rb:18-27 | `select`: an element is kept iff it satisfies the predicate. |
| Scopes.Discover | lib/commit/scope.rb:18-27 | A candidate is kept iff its basename is ".commit" and no component of its directory starts with "." or equals "tmp". |
| Scopes.DiscoverKeepsOrder | lib/commit/scope.rb:18-30 | Discovery distributes over concatenation, so survivors keep the enumeration order. |
| Scopes.Each | lib/commit/scope.rb:14-40 | One fresh scope per discovered path, in order, at that path. Each reads its settings from "<path>/config.yml" and keeps its data under "<path>/data". |
| Scopes.NewScopes | lib/commit/scope.rb:28-40 | `map { new(path:) }`: one fresh scope per path, in order, with the config location, data location and loaded settings `new` gives it. |
| Workspace.Generated | lib/commit/operations/templates/generate.rb:11-16 | An `each` loop that generates templates: the effects of the steps before the first error, in order, then that error. |
| Workspace.GeneratedStopsAtFirstError | lib/commit/operations/templates/update.rb:29-34 | A run stops at the first raising step, after exactly the steps before it. |
| Workspace.GeneratedWithoutError | lib/commit/operations/templates/update.rb:29-34 | A run none of whose steps raises ends without an error. |
| Workspace.RunSteps | lib/commit/operations/templates/generate.rb:11-16 | The loop appends to the checkout's log exactly the effects `Generated` lists and returns its error. The files are unchanged. |
| ExternalsInclude.Includes | lib/commit/operations/externals/include.rb:104-105 | `config.commit.includes` is a usable list iff `commit` is a hash holding a list under "includes". |
| ExternalsInclude.ApplicableOf | lib/commit/operations/externals/include.rb:93-97 | A (group, repo) pair is yielded for one external iff the group is among its groups and its name is in `includes`. |
| ExternalsInclude.ApplicableIn | lib/commit/operations/externals/include.rb:89-98 | Across all externals: a pair is yielded iff some external holds the group and the group is applicable. |
| ExternalsInclude.Rank | lib/commit/operations/externals/include.rb:105 | `includes.index(name)`: the first position of the name. |
| ExternalsInclude.ByRankIsTotalPreorder | lib/commit/operations/externals/include.rb:104-106 | Ordering pairs by the index of the group name is a total preorder. |
| ExternalsInclude.SortedApplicable | lib/commit/operations/externals/include.rb:100-109 | Without groups the result is empty. Otherwise it succeeds iff `includes` is a list. It is a permutation of the applicable pairs, sorted by rank. |
| ExternalsInclude.VisitedGroupsAreTheIncludedOnes | lib/commit/operations/externals/include.rb:69-71 | A group is visited iff its name is in `includes`. Visits come in non-decreasing order of that name's index. |
| ExternalsInclude.AppendMissing | lib/commit/operations/externals/include.rb:32-34 | The existing list stays a prefix. An element is in the result iff it was in either list. Appended elements were absent before and are distinct. |
| ExternalsInclude.AppendMissingFollowsIncomingOrder | lib/commit/operations/externals/include.rb:32-34 | The appended elements are a subsequence of the incoming list, in its order. |
| ExternalsInclude.AppendMissingAllPresent | lib/commit/operations/externals/include.rb:33 | When every incoming element is present, nothing is appended. |
| ExternalsInclude.AppendMissingIdempotent | lib/commit/operations/externals/include.rb:29-34 | Repeating the list merge adds nothing. |
| ExternalsInclude.MergeList | lib/commit/operations/externals/include.rb:30-34 | The `<<` loop computes `AppendMissing`. |
| ExternalsInclude.MergeSettings | lib/commit/operations/externals/include.rb:26-41 | Keys are the union. Untouched keys keep their value. A new key gets the incoming value as it is. An existing key keeps its value against a scalar. A list gets the missing elements appended. A hash is deep-merged. |
| ExternalsInclude.MergeInto | lib/commit/operations/externals/include.rb:26-41 | The in-place `each_pair` loop leaves the scope's settings equal to `MergeSettings` of the old settings. |
| ExternalsInclude.GroupConfigs | lib/commit/operations/externals/include.rb:23-24 | A config is in the result iff some visited group has it; groups without a config are skipped. |
| ExternalsInclude.GroupConfigsAppend | lib/commit/operations/externals/include.rb:22-24 | One more group adds its config at the end, if it has one, and nothing otherwise: the configs keep the order of the groups. |
| ExternalsInclude.MergeAll | lib/commit/operations/externals/include.rb:22-43 | Merging group after group never loses a key of the scope. |
| ExternalsInclude.ScopeScalarsSurvive | lib/commit/operations/externals/include.rb:27-37 | A scalar the scope sets is never overridden by any group. |
| ExternalsInclude.MergeSettingsIdempotent | lib/commit/operations/externals/include.rb:26-41 | With an idempotent deep merge, merging the same group config twice equals merging it once. |
| ExternalsInclude.CandidatesOf | lib/commit/operations/externals/include.rb:81-87 | Every candidate comes from a template of an applicable group, tagged with that group's repository, and every template of every applicable group gives a candidate. |
| ExternalsInclude.CandidatesOfAppend | lib/commit/operations/externals/include.rb:81-87 | One more group adds its own candidates at the end: groups are visited in order, and each group's templates in order. |
| ExternalsInclude.TemplatesOf | lib/commit/operations/externals/include.rb:83-85 | One candidate per template of the group, position by position. |
| ExternalsInclude.CandidateOf | lib/commit/operations/externals/include.rb:58-64 | The destination is copied verbatim. The source is "<scope>/templates/<repo>/<source>". |
| ExternalsInclude.DestinationOf | lib/commit/operations/externals/include.rb:76 | `configured_template.destination`: a string destination is read; the result always is the string under "destination". |
| ExternalsInclude.DestinationOfEntry | lib/commit/operations/externals/include.rb:58-64 | The entry appended for a candidate reports that candidate's destination. |
| ExternalsInclude.Claimed | lib/commit/operations/externals/include.rb:74-78 | `any?`: true only if some entry has the same expanded destination. False only if every entry has another one. An error only if some entry's destination cannot be read. |
| ExternalsInclude.Compose | lib/commit/operations/externals/include.rb:55-65 | The old list stays a prefix. Each appended entry is a candidate's entry, and its destination differs from every entry before it. |
| ExternalsInclude.ComposeServesEveryDestination | lib/commit/operations/externals/include.rb:73-86 | After a successful composition, every candidate's destination is claimed by some entry of the list. |
| ExternalsInclude.ComposeAppendsFirstClaims | lib/commit/operations/externals/include.rb:55-86 | Over a list whose destinations can all be read, composition never raises. It appends exactly the entries of the candidates that are the first to claim their expanded destination, in candidate order. |
| ExternalsInclude.SetTemplates | lib/commit/operations/externals/include.rb:52 | Attaching a list under `commit.templates` changes nothing else, not even the other keys inside `commit`. |
| ExternalsInclude.SetTemplatesTwice | lib/commit/operations/externals/include.rb:46-52 | Attaching a list twice equals attaching the second list. |
| ExternalsInclude.SetTemplatesKeepsGroups | lib/commit/operations/externals/include.rb:46-52 | Attaching a template list changes neither `includes` nor the groups visited. |
| ExternalsInclude.IncludeTemplatesKeepsListedTemplates | lib/commit/operations/externals/include.rb:47-58 | Afterwards there is a templates list. Other settings and the other keys inside `commit` are untouched, and the previous entries are a prefix of the list. |
| ExternalsInclude.IncludeTemplatesOnList | lib/commit/operations/externals/include.rb:46-66 | With a list in place or none yet, the result is the listed templates (none for a missing list) composed with the candidates, attached under `commit.templates`, and the composition's error. |
| ExternalsInclude.IncludeTemplatesOnNewList | lib/commit/operations/externals/include.rb:46-52 | A scope without a list gets the candidates composed onto an empty list. |
| ExternalsInclude.IncludeTemplatesAppendsFirstClaims | lib/commit/operations/externals/include.rb:46-86 | With readable listed destinations and usable groups, nothing raises and the list becomes the listed templates followed by the first claim of each destination, in group order. |
| ExternalsInclude.IncludedTemplatesClaimFreshDestinations | lib/commit/operations/externals/include.rb:73-86 | Every appended entry claims a destination no earlier entry, the scope's own or an earlier group's, claims. |
| ExternalsInclude.IncludeConfig | lib/commit/operations/externals/include.rb:22-43 | The loop over sorted groups leaves the settings and error that the specification of `include_config` gives. |
| ExternalsInclude.MergeGroups | lib/commit/operations/externals/include.rb:22-23 | Visiting the sorted groups in order and merging each group config that exists leaves the settings that merging the list of group configs one after another gives. |
| ExternalsInclude.IncludeTemplates | lib/commit/operations/externals/include.rb:46-66 | The method leaves the settings and error that the specification of `include_templates` gives. |
| ExternalsInclude.ComposeInto | lib/commit/operations/externals/include.rb:55-65 | The `<<` loop leaves `Compose`'s list attached as the scope's templates and returns its error. |
| ExternalsInclude.Call | lib/commit/operations/externals/include.rb:16-19 | `include_config`, then `include_templates` on the merged settings, unless the first raised. Each phase enumerates the externals of the settings it reads, so the composition also visits externals that a group's config added. |
| ChangelogsUpdate.Merged | lib/commit/operations/changelogs/update.rb:65-67 | Raises iff `pull_request` is neither a hash nor nil. Otherwise true iff it is a hash whose `merged` is truthy. |
| ChangelogsUpdate.DefaultBranch | lib/commit/operations/changelogs/update.rb:69-71 | Succeeds iff both chains pass through hashes or nil only. Then true iff the nested base ref equals the nested default branch. |
| ChangelogsUpdate.ReleaseName | lib/commit/operations/changelogs/update.rb:93-95 | `milestone.title!` succeeds iff `pull_request` and `milestone` are hashes or nil, and gives the nested title. |
| ChangelogsUpdate.Release | lib/commit/operations/changelogs/update.rb:73-75 | Succeeds exactly when the milestone title can be read. Then true iff that nested title is not nil. |
| ChangelogsUpdate.BangAll | lib/commit/operations/changelogs/update.rb:78 | `map(&:name!)` over a list: one raw value per element, or an error raised by some element. |
| ChangelogsUpdate.MapBang | lib/commit/operations/changelogs/update.rb:86 | On a Config, `map` answers a Config without mapping. On a scalar it raises. On a list it maps element by element. |
| ChangelogsUpdate.Intersect | lib/commit/operations/changelogs/update.rb:78 | `&`: an element is in the result iff it is in both lists, without duplicates. |
| ChangelogsUpdate.Changelog | lib/commit/operations/changelogs/update.rb:77-79 | True iff a truthy label is both configured and on the pull request. It succeeds only if both label sets are lists. |
| ChangelogsUpdate.FindChangetype | lib/commit/operations/changelogs/update.rb:104-106 | The first changetype whose label is among the event labels; every earlier one has a label that is not. |
| ChangelogsUpdate.Type | lib/commit/operations/changelogs/update.rb:101-111 | Errors from reading the labels or `commit.changetypes` pass through. A changetypes Config gives nil and a scalar raises. On a list, no matching changetype gives nil. The first changetype whose label is on the pull request gives its `name` when that is truthy, else its `label`. Every earlier changetype has a label that is not on the pull request. |
| ChangelogsUpdate.Applicable | lib/commit/operations/changelogs/update.rb:61-63 | The event applies iff merged, into the default branch, with a milestone, a changelog label and a change type. |
| ChangelogsUpdate.Entry | lib/commit/operations/changelogs/update.rb:28-37 | The entry holds id, type, summary, link and author, with the given change type. |
| ChangelogsUpdate.EntryReadsThePullRequest | lib/commit/operations/changelogs/update.rb:27-37 | The entry can be built iff `pull_request` and its `user` are hashes or nil. Its id, summary and link are then the pull request's number, title and URL, and its author holds the user's login and URL. |
| ChangelogsUpdate.ReleasesData | lib/commit/operations/changelogs/update.rb:136 | `YAML.safe_load(...) \|\| []`: an empty or false document is an empty list; anything else as read. |
| ChangelogsUpdate.FindRelease | lib/commit/operations/changelogs/update.rb:41-43 | The first release whose version equals the milestone; every earlier release has another version. |
| ChangelogsUpdate.Unshift | lib/commit/operations/changelogs/update.rb:54 | The entry goes in front of the release's changes; nothing else changes. |
| ChangelogsUpdate.AddChange | lib/commit/operations/changelogs/update.rb:41-54 | Succeeds only on a list of releases whose versions can all be read up to the match. |
| ChangelogsUpdate.AddToReleases | lib/commit/operations/changelogs/update.rb:41-54 | The in-place find, append and `unshift` compute `AddChange` on the releases read. |
| ChangelogsUpdate.AddChangeRecordsTheEntry | lib/commit/operations/changelogs/update.rb:41-54 | With a release of that version, the first such release gets the entry in front of its changes. Its other keys are kept, every release before it has another readable version, and the other releases are untouched. Without one, exactly one release `{version, changes: [entry]}` is appended. |
| ChangelogsUpdate.AddChangeTwiceAddsOneRelease | lib/commit/operations/changelogs/update.rb:45-52 | A second change for the same milestone adds no release. |
| ChangelogsUpdate.NewerFirstIsTotalPreorder | lib/commit/operations/changelogs/update.rb:57 | The descending version order used for sorting is a total preorder. |
| ChangelogsUpdate.SortReleases | lib/commit/operations/changelogs/update.rb:57 | The written list is a permutation of the releases, with string versions in descending string order. Sorting succeeds when the versions are comparable. |
| ChangelogsUpdate.MissingReleaseDataStartsAfresh | lib/commit/operations/changelogs/update.rb:129-137 | Without a releases file, or with an empty one, the file becomes a list of one release holding the one entry. |
| ChangelogsUpdate.FirstChangeOpensRelease | lib/commit/operations/changelogs/update.rb:41-54 | Adding a change to an empty list of releases gives one new release: it has the version and a `changes` list holding that one entry. |
| ChangelogsUpdate.GenerateReleaseData | lib/commit/operations/changelogs/update.rb:27-59 | The method leaves the files and error its specification gives, and runs no git command. A failed sort leaves the file emptied, since "w+" truncates it before the sort. |
| ChangelogsUpdate.WriteReleases | lib/commit/operations/changelogs/update.rb:56-58 | Opening with "w+" empties the file. The sorted releases are then written, unless comparing their versions raises. |
| ChangelogsUpdate.MismatchedVersionsEmptyTheFile | lib/commit/operations/changelogs/update.rb:56-58 | A release numbered 2 added beside a release "1.0" cannot be sorted. The call raises ArgumentError, and the releases file is left holding nothing. |
| ChangelogsUpdate.IgnoredEventsLeaveNoTrace | lib/commit/operations/changelogs/update.rb:16-17 | An event that does not apply leaves no file changed and runs no git command. |
| ChangelogsUpdate.SuccessfulPublicationRecordsTheChange | lib/commit/operations/changelogs/update.rb:19-24 | A successful run pulls, commits "update releases" and pushes, in that order, and the releases file records the entry. |
| ChangelogsUpdate.Publish | lib/commit/operations/changelogs/update.rb:19-24 | Pull, generate, commit, push: the checkout ends as the specification of that sequence says. |
| ChangelogsUpdate.Call | lib/commit/operations/changelogs/update.rb:16-25 | The gate, then publication; the checkout ends as the specification of `call` says. |
| ChangelogsInclude.EnsuredTemplates | lib/commit/operations/changelogs/include.rb:12 | The templates list already attached, or an empty one when there is none. |
| ChangelogsInclude.ChangelogEntry | lib/commit/operations/changelogs/include.rb:16-19 | The entry has exactly a source and a destination. The source is the configured one when set, else the bundled changelog template. The destination is the raw configured value. |
| ChangelogsInclude.Register | lib/commit/operations/changelogs/include.rb:15-20 | The old list stays a prefix. Without an error, exactly one entry per changelog follows, in configuration order. |
| ChangelogsInclude.WithoutReleasesNothingChanges | lib/commit/operations/changelogs/include.rb:10 | Without release data the settings are unchanged and nothing raises, whatever they hold, even with no `commit` hash. |
| ChangelogsInclude.OneEntryPerChangelog | lib/commit/operations/changelogs/include.rb:12-29 | Previous templates stay first, in order, followed by one entry per changelog in configuration order. |
| ChangelogsInclude.Call | lib/commit/operations/changelogs/include.rb:9-21 | The in-place loop leaves the settings and error the specification of `call` gives. Without release data any settings are accepted and left as they are. |
| TemplatesUpdate.TemplateConfigs | lib/commit/operations/templates/update.rb:48 | `config["templates"].to_a` succeeds iff the value is nil, a list or an empty hash. A list gives its elements. |
| TemplatesUpdate.ResolveGeneratedPath | lib/commit/operations/templates/update.rb:54-68 | No path: the template's basename without its extension. A path without extension: that name joined onto it. A path with an extension: the path itself. Anything else raises. |
| TemplatesUpdate.TemplateStep | lib/commit/operations/templates/update.rb:29-34 | A generation reads "<scope>/templates/<template>", which must exist, and writes at the resolved path. A missing template raises ENOENT for that path. |
| TemplatesUpdate.DirectoryPathKeepsTemplateName | lib/commit/operations/templates/update.rb:62-63 | Under a path without extension, the output starts with that path and has the template's name, minus its extension, as its basename. |
| TemplatesUpdate.SuccessfulUpdateCommitsAfterGenerating | lib/commit/operations/templates/update.rb:20-42 | A successful run generates once per entry, in list order, from each entry's template. Only then does it commit "update templates" and push. |
| TemplatesUpdate.FailedUpdateDoesNotCommit | lib/commit/operations/templates/update.rb:20-23 | A run that raises neither commits nor pushes. |
| TemplatesUpdate.MissingTemplateRaises | lib/commit/operations/templates/update.rb:27-30 | An entry whose template does not exist raises ENOENT for its path after exactly the entries before it. |
| TemplatesUpdate.Call | lib/commit/operations/templates/update.rb:20-23 | The checkout's log grows by exactly the effects the specification of `call` lists; the files are unchanged. |
| TemplatesGenerate.TemplateEntries | lib/commit/operations/templates/generate.rb:32 | A list under `commit.templates` gives its elements, wrapped. A nil `commit`, a missing list or a hash gives none. A `commit` that is neither a hash nor nil raises. |
| TemplatesGenerate.ResolveGeneratedPath | lib/commit/operations/templates/generate.rb:38-47 | A nil destination gives the unexpanded source's basename without its extension. A string destination is used verbatim. |
| TemplatesGenerate.RenderSource | lib/commit/operations/templates/generate.rb:19-21 | `render` looks a relative template up as "<scope>/templates/<path>"; an absolute path is used as it is. |
| TemplatesGenerate.PlainSourceIsReadFromTemplatesDirectory | lib/commit/operations/templates/generate.rb:19-21 | A plain template name is read from the scope's templates directory under that very name. |
| TemplatesGenerate.OutputPath | lib/commit/operations/templates/generate.rb:14 | An absolute resolved path is the output itself; a relative one is placed under "<scope>/../". |
| TemplatesGenerate.GenerateStep | lib/commit/operations/templates/generate.rb:11-16 | A generation reads from where `render` would read the expanded source, and that file must exist. A missing one raises ENOENT. An entry that is not a Config raises NoMethodError. |
| TemplatesGenerate.OneOutputPerEntry | lib/commit/operations/templates/generate.rb:10-17 | A successful run generates exactly one output per entry of `commit.templates`, in list order. |
| TemplatesGenerate.OutputLandsBesideCommitDirectory | lib/commit/operations/templates/generate.rb:14 | Outputs land under "<scope>/../": at the destination as given, or at the source's name without extension when there is no destination. |
| TemplatesGenerate.AbsoluteSourceIsReadAsIs | lib/commit/operations/templates/generate.rb:12 | An absolute expanded source, as the include operations write them, is read from that path. |
| TemplatesGenerate.Call | lib/commit/operations/templates/generate.rb:10-17 | The checkout's log grows by exactly the generations the specification of `call` lists, and the error is that specification's. |

## Left out

- `deep_merge!` (include.rb:36) belongs to a gem this model does not contain. It is a function parameter. The only assumption made is the idempotence the merge tests rely on (`DeepMergeIdempotent`).
- The config merge where the scope's value is of another kind than the group's is not modelled. `IncludeConfigDefined` requires the kinds to agree (`KindsAgree`):
  - a group list merged onto a scope value that is not a list: `<<` on a string would concatenate, and the code does not check for it;
  - a group hash merged onto a scope value that is not a hash: `deep_merge!` exists only on Hash, so `include.rb:36` would raise NoMethodError.
- `Config.load`, `expand` and `ensure` are defined in no file of this model.
  - The scope's settings are an input of `Scopes.Scope.constructor`.
  - Each external's groups are given as `External` values carrying the repository tag that `each_external_config` sets. How a settings map's `commit.externals` becomes that list is the parameter `loadExternals` of `ExternalsInclude.Call`, applied afresh in each phase.
  - `expand` is a parameter.
  - `ensure(:templates, [])` is taken to be get-or-create on a `commit` hash (`ChangelogsInclude.EnsureDefined`).
- Group names that are not strings, and group configs that are not hashes, are not modelled.
- Group templates whose source or destination is not a string are not modelled: `GroupTemplate` holds two strings. In Ruby, a missing or non-string source makes `Pathname#join` raise (`include.rb:59-61`). A non-string destination makes `File.expand_path` raise (`include.rb:76`), except when the live list is empty, where the entry is appended with the Config as its destination.
- A settings hash that holds its own "map", "find", "to_a" or "each" key is not modelled: `method_missing` would answer that key's value, and the model assumes those keys are absent.
- `File.expand_path` depends on the working directory. It is a function parameter.
- `Pathname`'s clean-up of "." and ".." is not modelled. A joined path is kept as text, which names the same file.
- Hash key order is not modelled: Dafny maps are unordered, and Ruby compares hashes without regard to order.
- Aliasing is not modelled. A group value stored under a new key is shared by reference in Ruby, so later in-place merges into it would also change the group's copy.
- YAML parsing and writing: files are held as parsed values.
- The ERB rendering and file writes of `Template` are recorded as `Generate(source, output)` actions. A generated file is not added to the files a later step can read.
- Git pull, commit and push are recorded as actions. Pull does not change the files.
- `Data#respond_to?(:releases)` is the boolean parameter `releasesExist`.
- The path of the bundled `changelog.md.erb` is the parameter `defaultChangelog`.
- Which error Ruby's sort reports first is not modelled. `ChangelogsUpdate.SortReleases` reports the error of the first release whose version cannot be read (TypeError or NoMethodError), even when other versions do not compare. When every version can be read, it raises `ArgumentError` whenever some pair cannot be compared. Ruby may meet either kind of failure first, depending on the order in which its sort compares the elements.
- ChangelogsUpdate.SortReleases: array versions are not compared element by element as `Array#<=>` would. Two different arrays are reported as not comparable. Integer versions are sorted descending, but the contract states the order only for string versions.
- Ruby's `sort` is not stable. The group sort of `include.rb:104-106` is stated by sortedness and permutation only; no order among groups of equal rank is claimed.
- `TemplatesGenerate.ResolveGeneratedPath` uses a non-nil destination verbatim (`generate.rb:38-47`). Only `templates/update.rb:62-63` treats a path without an extension as a directory.
- `TemplatesUpdate` indexes its configuration like a hash (`config["templates"]`, `template_config["path"]`). The loader of that configuration is not part of this model, so the model reads the loaded settings as a hash. On a `Config` of `lib/commit/config.rb`, such an indexing call would raise `ArgumentError`, because `method_missing` takes one argument.
- The `to_a` of a non-empty hash under "templates" in `TemplatesUpdate.TemplateConfigs` is reported as the `TypeError` its first pair raises when indexed by "template". The pairs themselves are not listed.
- `lib/commit/template.rb`, `lib/commit/data.rb`, `lib/commit/event.rb`, `lib/commit/operation.rb`, the git and GitHub operations, `externals/fetch.rb` and `dependents/update.rb` are not part of this model. They are I/O, reflection, process-wide state or subprocesses.
- The recursive glob of `Scope.each` is not modelled; its result is the input list of candidate paths.
