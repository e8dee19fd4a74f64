# The `chaos init` experiment wizard, in Dafny

This project models the interactive wizard behind chaostoolkit's `chaos init`
command. The wizard reads a discovery document listing the activities that a
chaostoolkit extension offers. It asks the operator for an experiment title and
an optional steady-state hypothesis. It then lets the operator pick activities
from numbered menus: probes for the hypothesis, and any activity for the method.
It returns the assembled experiment document.

The operator is modelled as a finite script of typed answers: `Index(n)` for a
number, `Yes`/`No`, and `Text(line)`. `Text("")` is the empty line. Every prompt
reads the answers it is given in order:

- An answer the prompt refuses makes it ask again, as click does.
- A number prompt accepts only a number.
- A yes/no prompt accepts yes, no, or the empty line, which means no.
- A text prompt accepts non-empty text. It accepts the empty line too when it shows a default.
- A script that runs out ends the session with click's `Abort`.

Modules:

- `Documents`: the discovery entries, activity records and experiment document.
- `Prompts`: the script of answers and click's prompts.
- `Menu`: the numbered menu, and the lookup of the typed number in the candidate list.
- `Wizard`: `add_activities`.
  - Pure functions `Add`, `ConfirmChoice` and `Commit` state what one call does.
  - `AddActivities` is the imperative procedure. It appends to a `Pool` object in place and is proved to match `Add`.
  - `PromptArguments` is the `for` loop that fills in the arguments map.
- `WizardProperties`: what a call does to the pool, for every script of answers.
- `Init`: `init`'s candidate lists and document assembly.
  - `ProbeCandidates` is the appending loop that collects the probes.
  - The method `Init` builds the document and is proved to match the function `Initialize`.
- `InitProperties`: what the finished document says.

Behaviour of the code that the model keeps:

- **A declined activity is still added.** The operator can decline the selected activity and then pick another. That nested call runs first. When it returns, control falls through to line 256, so the declined activity is appended after the nested call's records. So the pool does not grow by one record per confirmed selection. `DeclinedEntryStillAppended` shows a concrete case.
- **Tolerance is dropped on recursion.** Both recursive calls (lines 254 and 300) omit `with_tolerance`. So in a hypothesis, only the activity picked at the top-level menu gets a tolerance prompt. That activity may be appended after records added by a nested call.
- **Menu numbers are not range-checked.** A number outside the menu is not re-asked. `activities[index - 1]` is evaluated with Python's indexing: a negative position counts from the end of the list, and anything else raises `IndexError`, which ends the session. The model keeps this as `Raised(IndexError)`.
- **An empty discovery still needs an escape.** With a discovery that lists no activities, any number other than 0 raises `IndexError`.

## Model

| member | source | states |
|---|---|---|
| `Prompts.AskTakesFirstAccepted` | chaostoolkit/cli.py:238-239 | A prompt takes the first answer it accepts, skipping the ones it refuses. The unread answers are exactly those after it. It gets nothing only when no answer is acceptable. |
| `Prompts.AskIndex` | chaostoolkit/cli.py:238-239 | A number typed first is the answer, and the lines after it are unread. An empty script gives nothing (end of input). |
| `Prompts.AskConfirm` | chaostoolkit/cli.py:248-252 | A yes/no question whose first answer is yes gives true. A first answer of no or an empty line gives false (click's default). Either way the answers after it are unread. An empty script gives nothing. |
| `Prompts.AskRequired` | chaostoolkit/cli.py:260-261 | A prompt with no default always gives a non-empty line. When the first answer is non-empty text, that text is the answer, verbatim, and the answers after it are unread. An empty script gives nothing. |
| `Prompts.AskLine` | chaostoolkit/cli.py:284-285 | A prompt that shows a default gives that default when the first answer is the empty line. Non-empty text typed first is kept verbatim as a string. Either way the answers after it are unread. It answers exactly when the underlying prompt accepts some line. |
| `Prompts.RefusedLineIsAskedAgain` | chaostoolkit/cli.py:238-285 | A line a prompt refuses is dropped and the same prompt is asked on the lines after it. For a text prompt with no default, that includes the empty line. |
| `Menu.Select` | chaostoolkit/cli.py:243 | Numbers 1..n select entry number-1. Numbers -(n-1)..0 select from the end, with Python's negative indexing. Every other number raises IndexError. |
| `Menu.MenuHasOneLinePerCandidate` | chaostoolkit/cli.py:234-237 | Splitting the printed menu at newlines gives one line per candidate. Line k is `{k+1}) {name}`. |
| `Menu.MenuNumberSelects` | chaostoolkit/cli.py:234-243 | The number printed in front of line k parses back to k+1. Typing that number selects candidate k. |
| `Menu.DecimalRoundTrip` | chaostoolkit/cli.py:235-236 | Parsing the printed menu number gives back the number. |
| `Wizard.Pool.Append` | chaostoolkit/cli.py:295 | Appending adds the record at the end of the caller's list. The list is otherwise unchanged. |
| `Wizard.PromptArguments` | chaostoolkit/cli.py:267-294 | The argument loop fills in the map described by `Arguments`. It fails exactly when input ends. The map's keys are the declared names except `secrets` and `configuration`. |
| `Wizard.ArgumentsKeys` | chaostoolkit/cli.py:267-270 | A filled-in arguments map has exactly the declared names as keys, less the two reserved names, which never appear. |
| `Wizard.ArgumentDefaults` | chaostoolkit/cli.py:276-294 | Per argument: an empty line stores null when the declared default is null. It stores the literal default when that is anything else, and is asked again when there is no default. A non-empty line is stored verbatim. |
| `Wizard.NullOnlyFromNullDefault` | chaostoolkit/cli.py:276-292 | The stored value is null iff the declared default is null and the operator took it with an empty line. With a null default, the empty string is never stored. |
| `Wizard.NewActivity` | chaostoolkit/cli.py:256-294 | Builds the record described by `Build`. Its name, type, module and func come from the selected entry, and its provider type is "python". It carries a tolerance iff one was asked for. |
| `Wizard.BuildFields` | chaostoolkit/cli.py:256-266 | A built record has the selected entry's name (also as func), type and module, and provider type "python". It has a tolerance iff `with_tolerance`, which is the line typed at the tolerance prompt, kept as a string. It has no reserved argument. |
| `Wizard.AddActivities` | chaostoolkit/cli.py:211-300 | The in-place procedure leaves in the pool exactly the records `Add` gives for the same answers. It returns the same unread answers and the same outcome. |
| `WizardProperties.AddExtends` | chaostoolkit/cli.py:254-300 | Every call keeps the existing records and only appends, even when it raises. Each appended record is built from a candidate. At most one appended record carries a tolerance, and none when called without `with_tolerance`. |
| `WizardProperties.ConfirmChoiceExtends` | chaostoolkit/cli.py:248-256 | The same for the confirmation step, including the decline-then-pick-another path. |
| `WizardProperties.CommitExtends` | chaostoolkit/cli.py:256-300 | The same for building a record, appending it, and asking for more. |
| `WizardProperties.EscapeLeavesPoolUnchanged` | chaostoolkit/cli.py:238-241 | Answering 0 at the menu returns at once, with the pool unchanged. |
| `WizardProperties.OutOfRangeRaises` | chaostoolkit/cli.py:243 | A number above n, or at most -n, raises IndexError with the pool unchanged. |
| `WizardProperties.EmptyCatalogAddsNothing` | chaostoolkit/cli.py:238-243 | With no candidates, no call adds a record. |
| `WizardProperties.CommitAppends` | chaostoolkit/cli.py:256-300 | Adding a candidate appends exactly one record built from it, right after the existing ones, with a tolerance iff `with_tolerance`. Later selections append after it. If input ends while it is built, nothing is appended. |
| `WizardProperties.ConfirmedSelectionAppends` | chaostoolkit/cli.py:238-266 | Picking entry i and confirming it appends one record built from entry i, with the fields above. |
| `WizardProperties.PickLeadsToConfirmation` | chaostoolkit/cli.py:238-250 | A number that selects a candidate leads to the confirmation of that candidate. |
| `WizardProperties.DeclineTwiceLeavesPoolUnchanged` | chaostoolkit/cli.py:248-253 | Declining the activity and then declining to pick another returns with the pool unchanged. |
| `WizardProperties.DeclineRunsNestedCall` | chaostoolkit/cli.py:248-256 | After a decline and a yes to "select another", a nested call without tolerance runs. Unless it raises, the declined activity is then committed. |
| `WizardProperties.DeclineThenPickAnother` | chaostoolkit/cli.py:248-256 | The nested call's records come first. The declined entry is then committed after them, with the outer call's tolerance setting. |
| `WizardProperties.DeclinedEntryStillAppended` | chaostoolkit/cli.py:248-256 | Example: picking, declining, asking for another and escaping leaves the declined activity in the pool. |
| `Init.Listed` | chaostoolkit/cli.py:195 | The method's candidates are all discovered activities, in order, each listed under its own name. |
| `Init.ProbeCandidates` | chaostoolkit/cli.py:185-188 | The appending loop collects exactly `Probes(acts)`: only entries of type "probe" from the discovery. |
| `Init.ProbesConcat` | chaostoolkit/cli.py:185-188 | Collecting probes keeps discovery order: the probes of a concatenation are the probes of each part, in turn. |
| `Init.ProbesAreProbes` | chaostoolkit/cli.py:186-188 | Every collected candidate is a discovery entry of type "probe", listed under its name. |
| `Init.ProbesCount` | chaostoolkit/cli.py:185-188 | Each probe entry is collected as often as it occurs in the discovery, and no other entry is collected. |
| `Init.Init` | chaostoolkit/cli.py:147-204 | The procedure that builds the document key by key returns exactly `Initialize`'s document, or the same exception. |
| `InitProperties.InitKeepsDefaults` | chaostoolkit/cli.py:162-173 | The finished document keeps version "1.0.0", description "N/A", no tags and no rollbacks. Its title is the first non-empty line typed. |
| `InitProperties.InitSections` | chaostoolkit/cli.py:175-196 | The hypothesis is present iff the operator asked for one. Its probes and the method are present iff a discovery was loaded. Every record comes from the discovery, and the hypothesis's records only from its probes. Only the hypothesis has tolerances, at most one. No record names a reserved argument. |
| `InitProperties.SteadyStateFacts` | chaostoolkit/cli.py:177-191 | The hypothesis's title is the first non-empty line typed at its prompt. Its probes are present iff a discovery was loaded, built from probe entries, with at most one tolerance. |
| `InitProperties.MethodSectionFacts` | chaostoolkit/cli.py:193-196 | The method is added iff a discovery was loaded. Its records come from the discovery and have no tolerance. Nothing else in the document changes. |
| `InitProperties.ReservedExcluded` | chaostoolkit/cli.py:267-270 | Records built from catalog entries never have `secrets` or `configuration` arguments. |
| `InitProperties.EmptyDiscoveryGivesEmptyLists` | chaostoolkit/cli.py:183-196 | A discovery with no activities gives an empty method. When a hypothesis is asked for, its probe list is empty too. |

## Left out

- Styling, `click.echo`, the pager used for more than 10 candidates (lines 229-230), and echoing an activity's doc string (lines 244-246): presentation only, with no effect on what is selected.
- Type coercion by `click.prompt` when it infers a type from a default: this is library behaviour. A typed answer is stored as text.
- The answer kinds are simplified. A number typed at a text prompt, or "y" typed at a text prompt, is not modelled. An answer of the wrong kind for a prompt counts as refused input, and the prompt asks again.
- Defaults are limited to JSON null, booleans, integers and strings. Floating-point, list and object defaults are not modelled.
- A discovery entry that lacks "name", "type" or "mod" raises KeyError in Python; here every entry has those fields. A missing "arguments" key is the empty list.
- A discovery document without an "activities" key raises KeyError in Python (lines 186 and 195). Here every discovery has that list.
- An argument spec without a "name" key raises KeyError in Python (line 268). Here every argument spec has a name.
- A discovery that is an empty JSON object is falsy in Python. It is passed to the model as no discovery (`None`).
- Reading the discovery file and writing the experiment file (lines 156-158, 198-202), and logging.
- The `cli` group callback (lines 38-69): logging setup, the log file, the version check over the network, and changing directory.
- The `run`, `validate` and `discover` commands (lines 80-137): wrappers over chaoslib functions that are not part of this model.
- Plugin loading through entry points (line 208).
- Key order in the JSON output: maps here are unordered.
- Wizard.Add, Wizard.ConfirmChoice, Wizard.Commit: their own contracts only bound how much of the script they read. Their meaning is stated by the lemmas in `WizardProperties`.
