# wmaze first- and group-level helpers in Dafny

The wmaze fMRI analysis scripts hand three kinds of data to an external workflow engine and statistics toolkit:

- per-run condition tables;
- contrast specifications;
- output-renaming tables.

This project models the small pure helpers that build that data, and proves properties about them.

## First-level scripts

Two first-level scripts are modelled: model GLM1.2 and model GLM2.

**`subjectinfo`** reads six runs of behavioural event files. Each file has onset, duration and amplitude columns. For each run it builds one *bundle*: the condition names, with parallel onset, duration and amplitude lists.

- GLM1.2 has one trial category, `all_before_B`, split into `_corr` and `_incorr`, plus `all_remaining`.
- GLM2 has two categories, `fixed` and `cond`, each split the same way, plus `all_BL`.
- An `_incorr` condition exists only when its file is not empty.
- The text reader returns a one-line file as a flat array. The scripts detect that case with `size == 3`.

**`get_contrasts`** builds, per run:

1. the omnibus `AllVsBase` contrast, with weights 1/n;
2. one single-condition contrast per condition;
3. the difference and mean contrasts. Each group of these is appended only when the conditions it names are all present.

**`get_subs`** builds four find/replace pairs per contrast. Each pair renames a numbered statistic image (`cope3.` becomes `cope03_<name>.`).

**`motion_noise`** appends every column of a run's nuisance file to the run's bundle as a named regressor.

GLM1.2's `motion_noise` drops the last three rows of each nuisance file itself (model_GLM1.2/GLM1.2_lvl1.py:186). GLM2's script header says the last 3 volumes are removed (model_GLM2/GLM2_lvl1.py:12). That is done by its ExtractROI step, which keeps 197 volumes (model_GLM2/GLM2_lvl1.py:295), and not by `motion_noise`, which reads each nuisance file whole (model_GLM2/GLM2_lvl1.py:214). The model follows both scripts.

## Group-level scripts

The group-level scripts of GLM1 and GLM2 define three helpers and one list:

- `get_len`;
- `pickfirst`;
- `get_substitutions`, which maps `_contrast<c>`, `output` and each threshold directory name to the empty string;
- the list of contrast names the group analysis iterates over.

## Modules

The modules follow the data flow:

- `Results`: the `Result`/`Option` types. A Python exception is a `Failure`:
  - an absent file is `MissingFile`;
  - a shape error is `IndexError`;
  - `1. / len([])` is `ZeroDivisionError`.
- `Lists`: Python list idioms and weight sums:
  - `insert` past the end;
  - flattening a list of lists;
  - `[x] * n`.
- `Text`: `%d` and `%02d` decimal rendering, with a parser that inverts both.
- `Tables`: what the text reader returns (`Empty`, `OneRow`, `Rows`) and the numpy indexing applied to it.
- `Events`: the parsed event files of a subject, keyed by (run, category), and the step that turns one table into one condition.
- `Design`: bundles, contrasts, and the contrast blocks both first-level scripts share.
- `Naming`: `get_subs`, which is identical in both first-level scripts.
- `Motion`: `motion_noise`, shared by both scripts and parameterised by the number of trailing rows dropped (3 in GLM1.2, 0 in GLM2).
- `Glm12Lvl1`, `Glm2Lvl1`: the per-script `subjectinfo`, `get_contrasts` and `motion_noise`.
- `GroupLevel`: the group-level helpers, which are identical in both group scripts. It also relates each group script's contrast list to the contrasts the first level produces.

## Model

| member | source | states |
|---|---|---|
| `Lists.InsertPastEndAppends` | model_GLM1.2/GLM1.2_lvl1.py:117-125 | `output.insert(curr_run, …)` with an index at or past the end appends, so the bundle for run r lands at position r - 1 |
| `Lists.FlattenTwo` | model_GLM1.2/GLM1.2_lvl1.py:107-115 | flattening the per-category lists gives their concatenation in category order |
| `Lists.FlattenThree` | model_GLM2/GLM2_lvl1.py:112-119 | flattening the fixed, cond and baseline lists gives their concatenation in that order |
| `Lists.EqualWeightsSumToOne` | model_GLM1.2/GLM1.2_lvl1.py:136 | n copies of 1/n sum to exactly 1 for every n > 0 |
| `Text.ParseShow` | model_GLM1.2/GLM1.2_lvl1.py:160 | reading back the `%d` rendering of a contrast number gives the number |
| `Text.ParsePad2` | model_GLM1.2/GLM1.2_lvl1.py:160 | reading back the `%02d` rendering gives the number, so padding loses nothing |
| `Text.ShowInjective` | model_GLM2/GLM2_lvl1.py:193 | different contrast numbers render to different `%d` texts |
| `Text.Pad2Injective` | model_GLM2/GLM2_lvl1.py:193 | different contrast numbers render to different `%02d` texts |
| `Tables.SizeThree` | model_GLM1.2/GLM1.2_lvl1.py:69 | for any table the reader can return, `size == 3` holds exactly for a one-dimensional array of three cells: a one-row file of three cells or a three-line file of one column. Either is then read as one trial's onset, duration and amplitude |
| `Tables.Column` | model_GLM1.2/GLM1.2_lvl1.py:66-68 | `t[:, k]` succeeds exactly on a two-dimensional table wider than k, and yields cell k of every row |
| `Events.Read` | model_GLM1.2/GLM1.2_lvl1.py:55-57 | reading a run's category file fails with an I/O error exactly when the file is absent, and otherwise yields its table |
| `Events.TableTiming` | model_GLM1.2/GLM1.2_lvl1.py:82-84 | indexing a table as two-dimensional succeeds exactly for a multi-row table with at least three columns, and gives columns 0, 1 and 2 as parallel onsets, durations and amplitudes |
| `Events.SizeAwareTiming` | model_GLM2/GLM2_lvl1.py:67-82 | the size-aware read succeeds exactly for a one-dimensional array of three cells or a multi-row table with at least three columns; the three cells become singleton lists, and otherwise the columns are read |
| `Design.Assemble` | model_GLM1.2/GLM1.2_lvl1.py:117-125 | the bundle lists condition i's name, onsets, durations and amplitudes at position i in all four lists, and has no tmod, pmod or regressors |
| `Design.AssembleRecords` | model_GLM1.2/GLM1.2_lvl1.py:66-125 | when every condition was read from the run's file of its own name, the bundle's i-th timing lists are columns 0, 1 and 2 of that file |
| `Design.Omnibus` | model_GLM1.2/GLM1.2_lvl1.py:136 | `AllVsBase` spans all n conditions; each weight times n is 1, and the weights sum to 1 |
| `Design.Singles` | model_GLM1.2/GLM1.2_lvl1.py:139-141 | one contrast per condition, in condition order, named after it, over that condition alone with weight 1 |
| `Design.LeadingContrastsWellFormed` | model_GLM1.2/GLM1.2_lvl1.py:136-141 | the omnibus and single contrasts have one weight per condition and refer only to the run's conditions |
| `Naming.RunSubs` | model_GLM1.2/GLM1.2_lvl1.py:156-163 | a run with k contrasts gets 4k pairs; pair p renames kind cope/varcope/zstat/tstat (p mod 4) of contrast p div 4 + 1: the key uses the unpadded number and the value the two-digit padded number and the contrast's name |
| `Naming.GetSubs` | model_GLM1.2/GLM1.2_lvl1.py:152-165 | one pair list per run, in run order, with four pairs per contrast (the GLM2 script's `get_subs` at model_GLM2/GLM2_lvl1.py:187-198 is the same) |
| `Naming.RunSubKeysDistinct` | model_GLM1.2/GLM1.2_lvl1.py:158-163 | no two pairs of a run have the same key |
| `Naming.SubKeyAt` | model_GLM1.2/GLM1.2_lvl1.py:158-163 | the key of pair k is image kind k mod 4 followed by the `%d` text of contrast number k div 4 + 1 and a dot |
| `Naming.VarcopeExtendsCope` | model_GLM1.2/GLM1.2_lvl1.py:160-161 | the `cope` key is the `varcope` key without its `var` prefix, and so are the replacements: replacing the `cope` key inside a `varcope` file name already gives that file its intended name |
| `Naming.CopeKeysCoverContrasts` | model_GLM2/GLM2_lvl1.py:191-193 | the key `cope<n>.` occurs exactly for the contrast numbers 1 to k |
| `Naming.PairIndexAgrees` | model_GLM2/GLM2_lvl1.py:193-196 | the key and the replacement of every pair carry the same contrast number, and the replacement carries that contrast's name |
| `Motion.Trimmed` | model_GLM1.2/GLM1.2_lvl1.py:186 | for `trim` >= 1 (GLM1.2 passes 3), `a[:-trim]` keeps all but the last `trim` rows, in order, and keeps none when there are fewer. A `trim` of 0 stands for no slicing, as in GLM2, and keeps every row |
| `Motion.ReadNoise` | model_GLM1.2/GLM1.2_lvl1.py:185-197 | a nuisance file is usable exactly when it is two-dimensional; every column becomes one channel holding that column of the kept rows, named by the 17 fixed names and then `out_1`, `out_2`, … |
| `Motion.ReadAll` | model_GLM1.2/GLM1.2_lvl1.py:180-198 | all files are read in order before any bundle changes, and reading fails if any file is not two-dimensional |
| `Motion.AppendNoiseMerges` | model_GLM1.2/GLM1.2_lvl1.py:200-210 | appending a file's channels leaves conditions, timing and modulators unchanged, treats missing regressors as empty, keeps earlier regressors as a prefix, and appends one named regressor per column |
| `Motion.Merge` | model_GLM1.2/GLM1.2_lvl1.py:169-211 | `motion_noise` succeeds exactly when every file is two-dimensional and there are at least as many files as bundles; bundle j then receives the channels of file j |
| `Motion.ChannelNamesDistinct` | model_GLM1.2/GLM1.2_lvl1.py:181-194 | any two channels of a file get different regressor names |
| `Glm12Lvl1.CategoryConditions` | model_GLM1.2/GLM1.2_lvl1.py:60-91 | the category yields correct and incorrect conditions when the incorrect file is not empty, and otherwise only the correct one. It fails unless the correct file is a multi-row table with at least three columns, and unless a non-empty incorrect file is a one-dimensional array of three cells (a one-row file of three cells or a three-line file of one column) or a multi-row table with at least three columns |
| `Glm12Lvl1.RunBundle` | model_GLM1.2/GLM1.2_lvl1.py:50-125 | a run succeeds exactly when its three files exist and have indexable shapes. Its conditions are then `[corr, incorr, remaining]` or `[corr, remaining]`, following whether the incorrect file is empty, and each condition's timing lists are that file's three columns |
| `Glm12Lvl1.SubjectInfo` | model_GLM1.2/GLM1.2_lvl1.py:39-126 | `subjectinfo` succeeds exactly when all six runs are loadable, and then returns six bundles, bundle i recording run i + 1 |
| `Glm12Lvl1.RunContrasts` | model_GLM1.2/GLM1.2_lvl1.py:132-148 | a run's contrasts are `AllVsBase`, then one per condition, then the two difference contrasts exactly when both `all_before_B` variants are present: 1 + n or 1 + n + 2 contrasts |
| `Glm12Lvl1.RunContrastAt` | model_GLM1.2/GLM1.2_lvl1.py:136-147 | contrast k is the omnibus at 0, condition k - 1's single contrast up to n, and the two difference contrasts after that |
| `Glm12Lvl1.RunContrastsWellFormed` | model_GLM1.2/GLM1.2_lvl1.py:136-147 | every contrast of a run has one weight per referenced condition and refers only to conditions of that run |
| `Glm12Lvl1.GetContrasts` | model_GLM1.2/GLM1.2_lvl1.py:129-149 | one contrast list per bundle, in bundle order; it fails with a division by zero exactly when some bundle has no conditions |
| `Glm12Lvl1.DifferenceContrastGated` | model_GLM1.2/GLM1.2_lvl1.py:143-147 | a contrast over `[all_before_B_corr, all_before_B_incorr]` exists exactly when the run has both conditions |
| `Glm12Lvl1.DifferenceContrastsOpposite` | model_GLM1.2/GLM1.2_lvl1.py:144-145 | the two difference contrasts share their conditions, have negated weights, and each has weights summing to 0 |
| `Glm12Lvl1.MotionNoise` | model_GLM1.2/GLM1.2_lvl1.py:169-211 | the GLM1.2 merger drops the last three rows of every nuisance file before appending its columns |
| `Glm12Lvl1.RunConditionsGate` | model_GLM1.2/GLM1.2_lvl1.py:60-81 | a loaded run has both `all_before_B` variants exactly when its incorrect file is not empty, and has 3 or 2 conditions accordingly |
| `Glm12Lvl1.ContrastsForSubjectInfo` | model_GLM1.2/GLM1.2_lvl1.py:129-165 | on `subjectinfo`'s bundles, `get_contrasts` succeeds; a run gets 6 contrasts with incorrect trials and 3 without, and 4 substitutions per contrast |
| `Glm2Lvl1.CategoryConditions` | model_GLM2/GLM2_lvl1.py:62-97 | with a non-empty incorrect file, each table must be a one-dimensional array of three cells (a one-row file of three cells or a three-line file of one column) or a multi-row table with at least three columns; with an empty one, the correct table must be such a multi-row table. The category yields 2 or 1 conditions named `<category>_corr` and `<category>_incorr` |
| `Glm2Lvl1.NamesOfRun` | model_GLM2/GLM2_lvl1.py:94-113 | the flattened condition names are `fixed_corr`, [`fixed_incorr`], `cond_corr`, [`cond_incorr`], `all_BL` |
| `Glm2Lvl1.BuildRun` | model_GLM2/GLM2_lvl1.py:61-126 | once the five files are present, the run succeeds exactly when each has an indexable shape, and its bundle records each condition's file columns |
| `Glm2Lvl1.RunBundle` | model_GLM2/GLM2_lvl1.py:55-126 | a run succeeds exactly when its five files exist and have indexable shapes; each `_incorr` condition is present exactly when its file is not empty |
| `Glm2Lvl1.SubjectInfo` | model_GLM2/GLM2_lvl1.py:41-127 | `subjectinfo` succeeds exactly when all six runs are loadable, and then returns six bundles in run order |
| `Glm2Lvl1.RunContrasts` | model_GLM2/GLM2_lvl1.py:135-183 | a run's contrasts are `AllVsBase`, one per condition, then the gated groups: fixed pair, cond pair, correct pair, incorrect pair, four-condition group |
| `Glm2Lvl1.GetContrasts` | model_GLM2/GLM2_lvl1.py:130-184 | one contrast list per bundle; it fails with a division by zero exactly when some bundle has no conditions |
| `Glm2Lvl1.ExtrasWellFormed` | model_GLM2/GLM2_lvl1.py:141-182 | every gated contrast refers only to conditions present in the run, with one weight each |
| `Glm2Lvl1.RunContrastsWellFormed` | model_GLM2/GLM2_lvl1.py:135-183 | every contrast of a run has one weight per referenced condition and refers only to conditions of the run |
| `Glm2Lvl1.PairContrastGated` | model_GLM2/GLM2_lvl1.py:141-168 | for each of the four compared pairs, a contrast over exactly that pair exists when, and only when, the run has both conditions |
| `Glm2Lvl1.FourContrastsGated` | model_GLM2/GLM2_lvl1.py:170-182 | a contrast over all four conditions exists exactly when the run has all four |
| `Glm2Lvl1.PairGroupWeights` | model_GLM2/GLM2_lvl1.py:142-165 | in each pair group, b - a negates a - b, so its sum is the negation of the first; both sum to 0, and the mean weighs each condition 1/2, summing to 1 |
| `Glm2Lvl1.FourGroupWeights` | model_GLM2/GLM2_lvl1.py:171-178 | each four-condition contrast has weights ±1/2 summing to 0, and they come in negated pairs |
| `Glm2Lvl1.ExpectedPresent` | model_GLM2/GLM2_lvl1.py:61-66 | a run lists both correct conditions always, each incorrect one exactly when its file is not empty, and 3 to 5 conditions in all |
| `Glm2Lvl1.RunContrastCount` | model_GLM2/GLM2_lvl1.py:135-182 | a loaded run gets 7 contrasts with no incorrect trials, 11 with incorrect trials in one category, and 22 with both |
| `Glm2Lvl1.ContrastsForSubjectInfo` | model_GLM2/GLM2_lvl1.py:130-198 | on `subjectinfo`'s bundles, `get_contrasts` succeeds with 7, 11 or 22 contrasts per run, so every `%02d` contrast number has two digits |
| `Glm2Lvl1.MotionNoise` | model_GLM2/GLM2_lvl1.py:202-231 | the GLM2 merger keeps every row of each nuisance file, so each regressor has the file's row count |
| `GroupLevel.GetLen` | model_GLM1/GLM1_grplvl.py:34 | the copes count handed to the level-2 design is the list's length, and is 0 exactly for an empty list |
| `GroupLevel.PickFirst` | model_GLM1/GLM1_grplvl.py:37-41 | a list yields its first element and fails with IndexError when empty; a non-list value is returned unchanged |
| `GroupLevel.PickFirstIgnoresRest` | model_GLM2/GLM2_grplvl.py:36-40 | a value, the one-element list holding it, and any list starting with it all pick that value |
| `GroupLevel.ThresholdSubs` | model_GLM1/GLM1_grplvl.py:46-49 | for the indices 0 to n - 1, pair p maps `_z2pval`, `_cluster` or `_fdr` (p mod 3) followed by index p div 3 to the empty string |
| `GroupLevel.ThresholdKeyExtends` | model_GLM1/GLM1_grplvl.py:46-49 | the key for index 10i + d is the key for index i followed by the digit d, so `_z2pval1` is a prefix of `_z2pval10` to `_z2pval19` |
| `GroupLevel.GetSubstitutions` | model_GLM1/GLM1_grplvl.py:44-50 | 71 pairs: `_contrast<c>` and `output`, then the three threshold prefixes for each index 0 to 22; every replacement is empty |
| `GroupLevel.SubstitutionKeysDistinct` | model_GLM2/GLM2_grplvl.py:43-50 | no two of the 71 keys are equal, whatever the contrast name |
| `GroupLevel.ThresholdKeysCover` | model_GLM2/GLM2_grplvl.py:46-49 | each threshold prefix has a key with index i exactly when 0 <= i <= 22 |
| `GroupLevel.Glm1ContrastsProduced` | model_GLM1/GLM1_grplvl.py:53 | every GLM1 group-level contrast name is produced by a GLM1.2 first-level run exactly when the run has the correct, incorrect and remaining conditions |
| `GroupLevel.Glm1ContrastsForSubjectInfo` | model_GLM1/GLM1_grplvl.py:53 | on the bundles GLM1.2's `subjectinfo` builds, a run has all five contrasts the GLM1 group analysis uses exactly when it had incorrect trials |
| `GroupLevel.CorrGroupProduced` | model_GLM2/GLM2_lvl1.py:155-161 | a GLM2 run with both correct conditions produces both contrast names the GLM2 group analysis asks for |
| `GroupLevel.Glm2ConditionProduced` | model_GLM2/GLM2_lvl1.py:138-140 | every condition of a GLM2 run names one of its contrasts |
| `GroupLevel.ExtraNotGlm2Named` | model_GLM2/GLM2_lvl1.py:140-178 | without both correct conditions, no gated contrast carries either GLM2 group-level name |
| `GroupLevel.Glm2NamedFromCorrGroup` | model_GLM2/GLM2_lvl1.py:134-178 | a contrast carrying a GLM2 group-level name that is not a condition exists only when both correct conditions do |
| `GroupLevel.Glm2ContrastNamed` | model_GLM2/GLM2_grplvl.py:53 | each GLM2 group-level contrast name is produced by a GLM2 run exactly when the run has both correct conditions or the name is itself one of its conditions |
| `GroupLevel.Glm2ContrastsProduced` | model_GLM2/GLM2_grplvl.py:53 | both GLM2 group-level contrasts are produced by a run exactly when it has both correct conditions, or both names are themselves conditions of it |
| `GroupLevel.Glm2ContrastsForSubjectInfo` | model_GLM2/GLM2_grplvl.py:53 | on the bundles GLM2's `subjectinfo` builds, every run has both contrasts the GLM2 group analysis uses |

## Left out

- **Reading and parsing text files (`np.genfromtxt`) and converting cells to `float`.** Parsed tables of reals are inputs. A well-shaped two-dimensional table, with at least two rows, two columns and equal widths, is the reader's output shape and is a precondition.
- **Paths and subject identifiers.** These include the base directory, the `subject_id` argument that only forms paths, and the subject lists. The `eval` lookup of a table by category name becomes a map lookup.
- **Workflow wiring.** The nipype workflow, nodes, data grabbing and sinking, the FSL tools and the cluster submission are foreign calls. This includes GLM2's ExtractROI step that keeps 197 volumes. Only `motion_noise` itself is modelled, and as written it keeps every row of GLM2's nuisance files.
- **Unused helpers and Python mechanics.** Not modelled:
  - argparse;
  - `deepcopy`;
  - `pop_lambda`;
  - Python 2's `map` returning a list;
  - the `isinstance(el, list)` test before flattening, which always holds because every appended element is a list.
- **How the data sink applies substitutions.** The sink wired at model_GLM1.2/GLM1.2_lvl1.py:476 and model_GLM2/GLM2_lvl1.py:419 replaces substrings in order; the model builds the pair lists and does not apply them. Keys overlap: a `cope` key occurs inside the `varcope` key (`Naming.VarcopeExtendsCope`), and a threshold key for index 1 or 2 occurs inside the keys for 10 to 22 (`GroupLevel.ThresholdKeyExtends`). So the distinct keys do not mean that each name is matched by its own pair alone.
- **In-place mutation.** `motion_noise` changes the bundles it is given; the model returns updated bundles instead.
- **Floating-point rounding.** Weights such as `1. / 3` are exact reals, and regressor samples have an opaque type.
- **Error detail.** Failures record the kind of exception and not its message.
- **Group-level contrast source.** The GLM1 group contrast list is related to GLM1.2's first-level contrasts, because the GLM1 first-level script is not part of this model. Its condition and contrast names are the ones GLM1.2 uses.
- **`GroupLevel.GetSubstitutions`: only string contrast names.** The contrast value is taken to be a string. `'{0}'.format` of other values is not modelled, because the workflow only iterates over the string lists.
