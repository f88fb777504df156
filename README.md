# QuPath classification names and pixel-classifier training bookkeeping

This project is a Dafny model of two parts of QuPath.

- **`PathClassTools`** holds static helpers on classifications.
  - A classification (`PathClass`) is a chain of names from the class up to its root.
  - The helpers test a class's own name: ignored (trailing `*`), positive, negative, and the graded intensities `1+`, `2+`, `3+`.
  - One helper walks up the chain to the first ancestor that is not an intensity class.
  - The rest rebuild a class from its list of split names, after de-duplicating, sorting or removing names.
- **The pixel classifier pane (`PixelClassifierPane`)**, in two parts:
  - The bookkeeping of one training run, in `TrainingBookkeeping`:
    - capping or shuffling the samples;
    - per-class sample counts and inverse-frequency weights;
    - the count of correct predictions behind the logged accuracy;
    - the output channel type;
    - inverting the class-to-label map, with its duplicate warnings;
    - the ranking of random-forest feature importance.
  - The pane's mutable state, in `PaneState`:
    - the overlay slot that `replaceOverlay` swaps;
    - the listeners that push the region, live-prediction and opacity settings into the installed overlay;
    - the hierarchy listener that decides when to retrain;
    - the static registry of default feature-calculator builders.

Files:

- `optional.dfy`: `Option`, which stands for Java's nullable references.
- `path_class_tools.dfy`: module `PathClassTools`.
- `training.dfy`: module `TrainingBookkeeping`.
- `pane_state.dfy`: module `PaneState`.

Modelling choices:

- **Classifications.**
  - A `PathClass` is `Null` or a `Node(name, parent)`, and the name may be null (`None`).
  - `PathClassFactory.getPathClass` and the unclassified singleton are parameters, so every result holds for any factory.
  - Java compares the unclassified class by reference. Here it is compared as a value.
- **Imperative code stays imperative.**
  - `splitNames` collects names in a loop, then reverses an array in place.
  - `sortNames` sorts an array in place.
  - `removeNames` compacts an array in place.
  - The counting, weighting and accuracy loops of `doClassification` are loops over arrays.
  - The pane and its overlay are classes whose fields the methods update.
- **Behaviour that is easy to misread.** The model follows the code in each of these cases:
  - **Duplicate label indices.** A duplicate does not abort the training run. `PixelClassifierPane` logs a warning, keeps the later class (lines 865-870) and carries on.
  - **Hierarchy events with live prediction off.** The pane does not merely mark itself stale. It calls `updateClassifier(false)`, which removes the overlay (lines 643-651, 1303-1306).
  - **`splitNames`.** Its Javadoc promises an empty list for a class without a name. The code returns an empty list only for null or the unclassified class, and a nameless class yields a null entry.

## Model

| member | source | states |
|---|---|---|
| PathClassTools.IgnoredClassIff | qupath-core/src/main/java/qupath/lib/objects/classes/PathClassTools.java:37-39 | `IsIgnoredClass`: a class is ignored exactly when it is null, its name is null, or its name is some stem followed by `*` |
| PathClassTools.PositiveOrGradedIff | qupath-core/src/main/java/qupath/lib/objects/classes/PathClassTools.java:25-85 | `IsPositiveOrGradedIntensityClass` holds exactly for a non-null class named "Positive", "1+", "2+" or "3+"; it is `IsPositiveClass` or `IsGradedIntensityClass`; graded is `IsOnePlus`, `IsTwoPlus` or `IsThreePlus` |
| PathClassTools.NullClassTests | qupath-core/src/main/java/qupath/lib/objects/classes/PathClassTools.java:46-95 | every name test (`IsPositiveClass`, `IsNegativeClass`, `IsOnePlus`, `IsTwoPlus`, `IsThreePlus`, `IsGradedIntensityClass`, `IsPositiveOrGradedIntensityClass`, `IsIntensityClass`) is false on null, and null counts as ignored |
| PathClassTools.IntensityClassesAreNotIgnored | qupath-core/src/main/java/qupath/lib/objects/classes/PathClassTools.java:37-95 | an `IsIntensityClass` class is never ignored, and no class is both positive-or-graded and `IsNegativeClass` |
| PathClassTools.Up | qupath-core/src/main/java/qupath/lib/objects/classes/PathClassTools.java:105-109 | the ancestor k steps up has depth Depth - k, and is null once the chain is used up |
| PathClassTools.UpStep | qupath-core/src/main/java/qupath/lib/objects/classes/PathClassTools.java:105-109 | one more step up is the parent of the current ancestor |
| PathClassTools.GetNonIntensityAncestorClass | qupath-core/src/main/java/qupath/lib/objects/classes/PathClassTools.java:105-109 | the result is null or not an intensity class, it is the ancestor k steps up for some k within the depth, and every class strictly below it on the way is an intensity class |
| PathClassTools.ChainNames | qupath-core/src/main/java/qupath/lib/objects/classes/PathClassTools.java:121-127 | one name per class of the chain |
| PathClassTools.ChainNamesAt | qupath-core/src/main/java/qupath/lib/objects/classes/PathClassTools.java:121-127 | position i, counted from the root, is the name of the ancestor Depth - 1 - i steps up |
| PathClassTools.SplitNamesShape | qupath-core/src/main/java/qupath/lib/objects/classes/PathClassTools.java:118-128 | for a proper class the list has Depth entries, the last is the class's own name, the first is the root's, and each position holds its ancestor's name |
| PathClassTools.Reverse | qupath-core/src/main/java/qupath/lib/objects/classes/PathClassTools.java:126 | position i of the reversed array holds the old element at Length - 1 - i |
| PathClassTools.SplitNames | qupath-core/src/main/java/qupath/lib/objects/classes/PathClassTools.java:118-128 | the list is empty for null or the unclassified class, and is the chain's names root first otherwise |
| PathClassTools.FirstIndex | qupath-core/src/main/java/qupath/lib/objects/classes/PathClassTools.java:137 | the index found holds x and no earlier index does |
| PathClassTools.DistinctSpec | qupath-core/src/main/java/qupath/lib/objects/classes/PathClassTools.java:137 | `distinct` keeps exactly the names of the list, each once, in order of first occurrence |
| PathClassTools.UniqueNames | qupath-core/src/main/java/qupath/lib/objects/classes/PathClassTools.java:135-138 | the factory receives a list with no duplicates, holding exactly the split names, in first-occurrence order |
| PathClassTools.Swap | qupath-core/src/main/java/qupath/lib/objects/classes/PathClassTools.java:164 | two entries are exchanged and the rest stay |
| PathClassTools.TiesConcat | qupath-core/src/main/java/qupath/lib/objects/classes/PathClassTools.java:164 | the names tied with x in a concatenation are those of the first part followed by those of the second |
| PathClassTools.MovePastKeepsTies | qupath-core/src/main/java/qupath/lib/objects/classes/PathClassTools.java:164 | moving a name in front of names the comparator puts strictly after it keeps the order of the names tied with any x |
| PathClassTools.MoveDownKeepsTies | qupath-core/src/main/java/qupath/lib/objects/classes/PathClassTools.java:164 | moving s[i] down to position j, past names that come strictly after it, keeps the order of every group of tied names |
| PathClassTools.InsertedSorted | qupath-core/src/main/java/qupath/lib/objects/classes/PathClassTools.java:164 | once the moved name does not come strictly after its lower neighbour, the first i + 1 names are sorted |
| PathClassTools.SwapDown | qupath-core/src/main/java/qupath/lib/objects/classes/PathClassTools.java:164 | one step exchanges a[j - 1] and a[j], keeps the contents, and leaves the array as the original with a[i] moved down to j - 1 |
| PathClassTools.MoveDown | qupath-core/src/main/java/qupath/lib/objects/classes/PathClassTools.java:164 | the loop leaves a[i] at a position j where it does not come strictly after its lower neighbour, having passed only names that come strictly after it; the contents are a permutation |
| PathClassTools.InsertDown | qupath-core/src/main/java/qupath/lib/objects/classes/PathClassTools.java:164 | a sorted prefix of length i becomes a sorted prefix of length i + 1, the suffix stays, the contents are a permutation, and tied names keep their order |
| PathClassTools.SortInPlace | qupath-core/src/main/java/qupath/lib/objects/classes/PathClassTools.java:164 | the array ends sorted by the comparator, is a permutation of its old contents, and keeps the order of names the comparator ties (a stable sort) |
| PathClassTools.SortNames | qupath-core/src/main/java/qupath/lib/objects/classes/PathClassTools.java:162-166 | the factory receives a permutation of the split names, ordered by the comparator, with names the comparator ties in their split-name order (`List.sort` is stable) |
| PathClassTools.CompareStringsAntisymmetric | qupath-core/src/main/java/qupath/lib/objects/classes/PathClassTools.java:149-151 | comparing b with a gives the negation of comparing a with b |
| PathClassTools.CompareStringsTransitive | qupath-core/src/main/java/qupath/lib/objects/classes/PathClassTools.java:149-151 | the string order's at-most relation is transitive |
| PathClassTools.NaturalOrderIsComparator | qupath-core/src/main/java/qupath/lib/objects/classes/PathClassTools.java:149-151 | natural order on names is a total preorder |
| PathClassTools.SortNamesNatural | qupath-core/src/main/java/qupath/lib/objects/classes/PathClassTools.java:149-151 | it fails (NullPointerException) exactly when there are two or more split names and one is null; otherwise the factory receives a permutation of them in natural order, with tied names in their split-name order |
| PathClassTools.WithoutCounts | qupath-core/src/main/java/qupath/lib/objects/classes/PathClassTools.java:177 | every occurrence of a removed name is dropped and every occurrence of any other name is kept |
| PathClassTools.WithoutLength | qupath-core/src/main/java/qupath/lib/objects/classes/PathClassTools.java:177 | removal never lengthens the list; the list is untouched when no name is removed, and strictly shorter otherwise |
| PathClassTools.WithoutChangesIff | qupath-core/src/main/java/qupath/lib/objects/classes/PathClassTools.java:177 | the list changes (in contents, and in length) exactly when one of its names is to be removed |
| PathClassTools.WithoutConcat | qupath-core/src/main/java/qupath/lib/objects/classes/PathClassTools.java:177 | removal works element by element, so the kept names keep their order |
| PathClassTools.RemoveAll | qupath-core/src/main/java/qupath/lib/objects/classes/PathClassTools.java:177 | the first size entries are the old list without the removed names, and the result flag is true exactly when the list got shorter |
| PathClassTools.RemoveNames | qupath-core/src/main/java/qupath/lib/objects/classes/PathClassTools.java:175-180 | the very same class comes back when no split name is removed; otherwise the factory's class for the split names with the removed ones dropped |
| PathClassTools.RemoveNamesArray | qupath-core/src/main/java/qupath/lib/objects/classes/PathClassTools.java:189-191 | the same, with the names given as an array |
| TrainingBookkeeping.ChooseSampleSplit | qupath-extension-processing/src/main/java/qupath/process/gui/ml/PixelClassifierPane.java:765-768 | a split of maxSamples is requested exactly when 0 < maxSamples < the number of training samples; otherwise the data is shuffled |
| TrainingBookkeeping.SampleCapShrinks | qupath-extension-processing/src/main/java/qupath/process/gui/ml/PixelClassifierPane.java:765-768 | a requested split keeps a non-empty, strictly smaller training set, and a cap of 0 or less always shuffles |
| TrainingBookkeeping.CountOf | qupath-extension-processing/src/main/java/qupath/process/gui/ml/PixelClassifierPane.java:784-787 | a label's count is at most the number of samples |
| TrainingBookkeeping.CountOfPositive | qupath-extension-processing/src/main/java/qupath/process/gui/ml/PixelClassifierPane.java:784-787 | every label that occurs has a positive count |
| TrainingBookkeeping.CountsSumToTotal | qupath-extension-processing/src/main/java/qupath/process/gui/ml/PixelClassifierPane.java:784-787 | with every label in range, the per-class counts sum to the number of samples |
| TrainingBookkeeping.SumBump | qupath-extension-processing/src/main/java/qupath/process/gui/ml/PixelClassifierPane.java:786 | incrementing one count increments the total by one |
| TrainingBookkeeping.CountClasses | qupath-extension-processing/src/main/java/qupath/process/gui/ml/PixelClassifierPane.java:784-787 | rawCounts has one entry per label, and entry k is the number of samples labelled k |
| TrainingBookkeeping.CountsPerClass | qupath-extension-processing/src/main/java/qupath/process/gui/ml/PixelClassifierPane.java:788-791 | one count per label-map entry, in the map's order, each the raw count of that entry's label |
| TrainingBookkeeping.ReweightSamples | qupath-extension-processing/src/main/java/qupath/process/gui/ml/PixelClassifierPane.java:798-807 | the class weight is 1 for an empty class and n / count otherwise, and each sample gets the weight of its own label |
| TrainingBookkeeping.WeightOfClassConstant | qupath-extension-processing/src/main/java/qupath/process/gui/ml/PixelClassifierPane.java:804-807 | when all samples of a class weigh w, together they weigh count × w |
| TrainingBookkeeping.WeightTimesCount | qupath-extension-processing/src/main/java/qupath/process/gui/ml/PixelClassifierPane.java:799-803 | for an observed class, weight × count = n |
| TrainingBookkeeping.RowsShareWeight | qupath-extension-processing/src/main/java/qupath/process/gui/ml/PixelClassifierPane.java:804-807 | every sample of class k carries class k's weight |
| TrainingBookkeeping.ClassWeighsTotal | qupath-extension-processing/src/main/java/qupath/process/gui/ml/PixelClassifierPane.java:798-807 | the samples of an observed class together weigh n |
| TrainingBookkeeping.WeightsBalanceClasses | qupath-extension-processing/src/main/java/qupath/process/gui/ml/PixelClassifierPane.java:798-807 | with the weights reweighting assigns, every observed class has total weight n |
| TrainingBookkeeping.WeightedTargets | qupath-extension-processing/src/main/java/qupath/process/gui/ml/PixelClassifierPane.java:784-807 | counting and then reweighting yields the true counts and gives every observed class total weight n |
| TrainingBookkeeping.Matches | qupath-extension-processing/src/main/java/qupath/process/gui/ml/PixelClassifierPane.java:831-835 | the number of matching predictions is at most the number of predictions |
| TrainingBookkeeping.MatchesBounds | qupath-extension-processing/src/main/java/qupath/process/gui/ml/PixelClassifierPane.java:831-835 | the match count is all the predictions exactly when every prediction is right, and 0 exactly when none is |
| TrainingBookkeeping.CountCorrect | qupath-extension-processing/src/main/java/qupath/process/gui/ml/PixelClassifierPane.java:830-835 | the loop computes 0 <= nCorrect <= nTest, the number of positions where the prediction equals the reference label |
| TrainingBookkeeping.EvaluateAccuracy | qupath-extension-processing/src/main/java/qupath/process/gui/ml/PixelClassifierPane.java:818-835 | the reference is the training labels, reported as the training set, when the test set is empty, and the test labels, reported as the held-out set, otherwise; nCorrect counts matches against that reference |
| TrainingBookkeeping.LoggedAccuracy | qupath-extension-processing/src/main/java/qupath/process/gui/ml/PixelClassifierPane.java:836 | the logged percentage, as written, divides by the training count n; it is finite exactly when n > 0 |
| TrainingBookkeeping.LoggedAccuracyExceedsHundred | qupath-extension-processing/src/main/java/qupath/process/gui/ml/PixelClassifierPane.java:836 | five held-out samples, each predicted as its own label, counted by Matches against a training count of 2, are logged as 250 % |
| TrainingBookkeeping.Accuracy | qupath-extension-processing/src/main/java/qupath/process/gui/ml/PixelClassifierPane.java:830-836 | over nTest evaluated samples the percentage lies in [0, 100], is 100 exactly when all are correct and 0 exactly when none is |
| TrainingBookkeeping.AccuracyOfMatches | qupath-extension-processing/src/main/java/qupath/process/gui/ml/PixelClassifierPane.java:830-836 | the accuracy of the counted predictions is 100 % exactly when every prediction matches |
| TrainingBookkeeping.OutputChannelType | qupath-extension-processing/src/main/java/qupath/process/gui/ml/PixelClassifierPane.java:859-862 | the type is classification unless the model supports probabilities, and then it is the selected type |
| TrainingBookkeeping.ProbabilityOnlyWhenSupported | qupath-extension-processing/src/main/java/qupath/process/gui/ml/PixelClassifierPane.java:859-862 | probability output happens exactly when it is both supported and selected |
| TrainingBookkeeping.InvertLabels | qupath-extension-processing/src/main/java/qupath/process/gui/ml/PixelClassifierPane.java:865-870 | the loop builds the label-to-class map with later entries replacing earlier ones, and logs one warning per replaced non-null class |
| TrainingBookkeeping.InvertedKeys | qupath-extension-processing/src/main/java/qupath/process/gui/ml/PixelClassifierPane.java:865-870 | the labels of the inverted map are exactly the labels of the entries |
| TrainingBookkeeping.InvertedLastWins | qupath-extension-processing/src/main/java/qupath/process/gui/ml/PixelClassifierPane.java:865-870 | a label maps to the class of the last entry holding it |
| TrainingBookkeeping.InvertedNonNull | qupath-extension-processing/src/main/java/qupath/process/gui/ml/PixelClassifierPane.java:865-867 | without null classes among the entries, no label maps to null |
| TrainingBookkeeping.DuplicatesCount | qupath-extension-processing/src/main/java/qupath/process/gui/ml/PixelClassifierPane.java:865-870 | without null classes, the warnings plus the distinct labels number the entries |
| TrainingBookkeeping.NoDuplicatesIffDistinctLabels | qupath-extension-processing/src/main/java/qupath/process/gui/ml/PixelClassifierPane.java:865-870 | without null classes, no warning is logged exactly when no two entries share a label |
| TrainingBookkeeping.NullClassHidesDuplicate | qupath-extension-processing/src/main/java/qupath/process/gui/ml/PixelClassifierPane.java:867-869 | a label first held by the null class is replaced without a warning, because `put` then returns null |
| TrainingBookkeeping.InsertRanked | qupath-extension-processing/src/main/java/qupath/process/gui/ml/PixelClassifierPane.java:907-910 | inserting a feature adds it once to the ranking and keeps the indices in range |
| TrainingBookkeeping.RankFirst | qupath-extension-processing/src/main/java/qupath/process/gui/ml/PixelClassifierPane.java:907-910 | ranking the first n features gives a permutation of 0 .. n - 1 |
| TrainingBookkeeping.Indices | qupath-extension-processing/src/main/java/qupath/process/gui/ml/PixelClassifierPane.java:907 | `IntStream.range(0, n)` is 0, 1, …, n - 1 |
| TrainingBookkeeping.InsertRankedSorted | qupath-extension-processing/src/main/java/qupath/process/gui/ml/PixelClassifierPane.java:907-910 | inserting a new feature into a ranked list keeps it ranked |
| TrainingBookkeeping.RankFirstSorted | qupath-extension-processing/src/main/java/qupath/process/gui/ml/PixelClassifierPane.java:907-910 | the ranking of the first n features is ranked |
| TrainingBookkeeping.RankingSpec | qupath-extension-processing/src/main/java/qupath/process/gui/ml/PixelClassifierPane.java:907-910 | the ranking is a permutation of the feature indices, ordered by non-increasing importance, with ties in ascending index order (a stable sort) |
| TrainingBookkeeping.LogVariableImportance | qupath-extension-processing/src/main/java/qupath/process/gui/ml/PixelClassifierPane.java:900-924 | no result (false) when importance is null or its length differs from the feature count; otherwise one line per feature in ranked order, pairing its importance with its name |
| PaneState.AnyMatch | qupath-extension-processing/src/main/java/qupath/process/gui/ml/PixelClassifierPane.java:1304-1305 | `anyMatch` is true exactly when some element satisfies the predicate |
| PaneState.HierarchyChanged | qupath-extension-processing/src/main/java/qupath/process/gui/ml/PixelClassifierPane.java:1303-1306 | retrains exactly when the event is not changing, not a measurement event, is a classification event or touches a classified object, and touches an annotation (the structure-or-non-empty test is then implied) |
| PaneState.NeverRetrains | qupath-extension-processing/src/main/java/qupath/process/gui/ml/PixelClassifierPane.java:1303-1306 | events still in progress, measurement events and events without changed objects never retrain |
| PaneState.AnyMatchSameElements | qupath-extension-processing/src/main/java/qupath/process/gui/ml/PixelClassifierPane.java:1304-1305 | `anyMatch` depends only on which elements the list holds |
| PaneState.RetrainIgnoresOrder | qupath-extension-processing/src/main/java/qupath/process/gui/ml/PixelClassifierPane.java:1303-1306 | reordering the changed objects does not change the decision |
| PaneState.ClassificationOverlay.constructor | qupath-extension-processing/src/main/java/qupath/process/gui/ml/PixelClassifierPane.java:883 | the overlay that doClassification creates is running (not stopped) |
| PaneState.ClassificationOverlay.Stop | qupath-extension-processing/src/main/java/qupath/process/gui/ml/PixelClassifierPane.java:940-942 | stopping marks the overlay stopped and changes none of its settings |
| PaneState.ClassifierPane.constructor | qupath-extension-processing/src/main/java/qupath/process/gui/ml/PixelClassifierPane.java:121-129 | a new pane has no overlay, live prediction off, full opacity and the first region |
| PaneState.ClassifierPane.ReplaceOverlay | qupath-extension-processing/src/main/java/qupath/process/gui/ml/PixelClassifierPane.java:935-949 | the previous overlay, if any, is stopped; the new one is installed with mask = (region is annotations only), the current live flag and the current opacity; the pane's settings are unchanged |
| PaneState.ClassifierPane.UpdateClassifier | qupath-extension-processing/src/main/java/qupath/process/gui/ml/PixelClassifierPane.java:643-651 | with classification off the overlay is removed; with it on, the newly trained overlay is installed and running, or the old one stays untouched when training returns early; an overlay that is removed is stopped |
| PaneState.ClassifierPane.OnHierarchyChanged | qupath-extension-processing/src/main/java/qupath/process/gui/ml/PixelClassifierPane.java:1300-1309 | a non-retraining event changes nothing; a retraining one removes the overlay with live prediction off, and with it on installs the trained overlay, running, or leaves the old one untouched when training returns early; an overlay that is removed is stopped |
| PaneState.ClassifierPane.OnRegionChanged | qupath-extension-processing/src/main/java/qupath/process/gui/ml/PixelClassifierPane.java:264-267 | the pane takes the new region and the installed overlay masks by annotations exactly when the region is annotations only |
| PaneState.ClassifierPane.OnLivePredictionChanged | qupath-extension-processing/src/main/java/qupath/process/gui/ml/PixelClassifierPane.java:286-297 | called only when the flag changes: with no overlay, switching on installs the trained overlay, running, or none when training returns early; with an overlay, the overlay follows the flag, stays installed and is not stopped |
| PaneState.ClassifierPane.OnOpacityChanged | qupath-extension-processing/src/main/java/qupath/process/gui/ml/PixelClassifierPane.java:401-407 | the installed overlay takes the slider's opacity |
| PaneState.FeatureBuilderRegistry.constructor | qupath-extension-processing/src/main/java/qupath/process/gui/ml/PixelClassifierPane.java:109 | the registry starts empty |
| PaneState.FeatureBuilderRegistry.Install | qupath-extension-processing/src/main/java/qupath/process/gui/ml/PixelClassifierPane.java:517-523 | returns true exactly when the builder was absent, and then appends it; afterwards it is present, the list has no repeats, and it is unchanged when false is returned |

## Left out

- Java's null arguments for `removeNames`' collection are not modelled. A null collection makes `removeAll` throw.
- `PathClassFactory`'s interning of classes: `getPathClass` is a parameter, and class identity is value equality.
- The contents of `PathClassFactory.intensityClassNames`: `IsGradedIntensityClass` uses "1+", "2+" and "3+", as the documentation of `isGradedIntensityClass` says. `PathClassFactory` is not part of this model.
- CompareStrings: Java's `String.compareTo` compares UTF-16 code units. The model compares characters, so strings outside the Basic Multilingual Plane may order differently.
- SortNamesNatural: the model fails whenever a null name meets two or more names. It does not model which comparison Java's sort makes first.
- All OpenCV and JavaFX work is left out: creating and training the model, predicting, preprocessing, setting seeds, building the classifier and overlay, and the pie chart. Its outputs are inputs here: label buffers, predictions, importance values, probability support, and the overlay a training run builds.
- With `reweightSamples` off (`PixelClassifierPane.java:795`), the source passes null weights to `createTrainData`. The model has nothing to check on that path: ReweightSamples and WeightedTargets model only the reweighting branch.
- ReweightSamples: its weights are reals. The source computes them in 32-bit floats, so the identity weight × count = n holds there only up to rounding.
- CountClasses, ReweightSamples, CountsPerClass, CountCorrect, EvaluateAccuracy: labels out of range, or fewer reference labels than predictions, throw `IndexOutOfBoundsException` in the source. These methods require them in range instead.
- LogVariableImportance: it sorts reals, so Java's `Double.compare` ordering of NaN and of -0.0 against 0.0 is not modelled. The `try`/`catch` around the sort is also not modelled.
- The text and number formatting of the log lines.
- The `Platform.runLater` re-dispatch to the application thread in `replaceOverlay`. Only its sequential body is modelled.
- The feature-display overlay (`featureOverlay`) that the live-prediction and opacity listeners and `ensureOverlaySet` also update, and the viewer's repaint.
- `showOutput`, `showFeatures`, `getResultsString`, `addResolution`, `saveAndApply`, `classifyObjects`, `showAdvancedOptions`, `destroy` and project persistence: they are display, I/O or dialog code.
- The tile cache, the generation counter and the overlay's tile computation are not part of this model. Their code is not among the modelled files.
- `PixelClassificationOverlay` (its stopping, masking and live behaviour beyond the settings the pane writes) is not part of this model.
- `ClassificationRegion`: the declaration order of its values is not part of this model. The pane's constructor takes the first region as a parameter.

## Findings

| source | as written | input that shows it | evidently intended | confidence | as-written member | corrected member |
|---|---|---|---|---|---|---|
| qupath-extension-processing/src/main/java/qupath/process/gui/ml/PixelClassifierPane.java:836 | the logged accuracy is `nCorrect * 100 / n`, where n is the number of training samples, even when a held-out set of nTest samples was evaluated | maxSamples = 2 of 7 samples: 2 train, 5 held out, all 5 predicted correctly, logged as 250 % | `nCorrect * 100 / nTest`, a percentage of the evaluated samples | medium, not executed; the held-out case needs `createTrainData` (line 814, OpenCV code that is not part of this model) to keep a non-empty test split when it rebuilds `trainData`, so whether that branch is reachable is not confirmed | TrainingBookkeeping.LoggedAccuracyExceedsHundred | TrainingBookkeeping.Accuracy |
