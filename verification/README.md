# Interactive 1-D fitting: the interactive model core

This project models the core of `lmf_gui/models.py` in Dafny and proves properties of it. In that core, interactive fit models map their parameters to an editable shape and back, and are combined into composite models.

- **`Gaussian`** (`gaussian.dfy`) models `IGaussianModel`, a Gaussian peak component, in three parts:
  - A scroll event rescales the peak. One clipped factor multiplies both `sigma` and `amplitude`.
  - The peak's parameters are projected onto a two-vertex poly-selector shape. The first vertex is one sigma left of the peak and the second is the peak itself.
  - Such a shape is read back into parameters.
- **`Composite`** (`composite.dfy`) models two things:
  - The operators `+ - * /`, which build a binary tree of components tagged with an operator.
  - `ICompositeModel.guess`, which merges the guesses of the two children into one parameter set, with the right child's entries taking precedence.
- **`Wrappers`** (`wrappers.dfy`) holds the `Option` and `Result` types used for error paths.

Floats are exact `real`s. The fitting library (lmfit) is not part of this model, and its pieces enter as parameters:
- The Gaussian line shape enters as a `Lineshape` value: the constant sqrt(2*pi) and an evaluation function. `Lineshape.Valid` states the only fact the model uses: a peak of positive width has the value `amplitude / (sqrt(2*pi) * sigma)` at its center, because exp(0) = 1.
- A single component's guess from the data enters as a function `leafGuess` from the component's name prefix and the data to a parameter set.
- Parameter-set entries (value, bounds, vary flag) have an arbitrary type `V`.

Keyword overrides (`**kwargs` in the source) are a map from argument name to value. They are merged once, and an override replaces the parameter's value (`FuncArgs`).

Where the system's design documentation and the code differ, the model follows the code:
- **Zero-width shape.** The design says a zero-width shape must be rejected or clamped. The code (`lmf_gui/models.py:94-95`) returns `sigma = 0` and `amplitude = 0` without an error, and `FromShape` does the same.
- **Name collisions in `guess`.** The design suggests that colliding parameter names be refused. The code lets the right child's entry win, and so does the model.

## Model

| member | source | states |
|---|---|---|
| `Gaussian.PeakHeight` | lmf_gui/models.py:95 | The peak height h of a positive-width peak satisfies `h * sqrt(2*pi) * sigma == amplitude`. It is positive exactly when the amplitude is. |
| `Gaussian.FuncArgs` | lmf_gui/models.py:84-85 | The argument dictionary holds amplitude, center and sigma. Each override replaces the parameter's value, and an argument without an override keeps the parameter's value. |
| `Gaussian.WithOverrides` | lmf_gui/models.py:84-86 | Each argument of the effective parameters is the override if one is given, else the current value. Without overrides the parameters are unchanged. |
| `Gaussian.Clip` | lmf_gui/models.py:79 | The result lies in [lo, hi]. It is the value itself inside the interval and the nearer bound outside. |
| `Gaussian.ScrollScale` | lmf_gui/models.py:79 | For every integer tick count the scale factor lies in [0.5, 2]. It is ticks/700 + 1 from -350 to 700 ticks, 2 from 700 ticks up, 0.5 from -350 ticks down, and 1 at zero ticks. |
| `Gaussian.ScrollScaleMonotone` | lmf_gui/models.py:79 | The scale factor never decreases as the tick count increases. |
| `Gaussian.Rescaled` | lmf_gui/models.py:80-81 | The center is unchanged and the ratio of amplitude to sigma is kept (`q.sigma * p.amplitude == q.amplitude * p.sigma`). A positive factor keeps a positive width, and factor 1 changes nothing. |
| `Gaussian.UpdateParamsFromScroll` | lmf_gui/models.py:77-82 | Scaling the dictionary's sigma and amplitude entries in place gives the effective parameters with both multiplied by the clipped scroll factor. |
| `Gaussian.RescaleKeepsPeak` | lmf_gui/models.py:80-81 | Scaling sigma and amplitude by one positive factor keeps the width positive, keeps the peak height, and keeps the line shape's value at the (unchanged) center. |
| `Gaussian.ScrollKeepsPeak` | lmf_gui/models.py:79-81 | For any tick count, a scroll leaves the center in place and leaves the Gaussian's value at the peak unchanged. |
| `Gaussian.ScrollExamples` | lmf_gui/models.py:79-81 | 700 ticks double sigma and amplitude, -700 ticks halve them, and zero ticks leave the parameters unchanged. |
| `Gaussian.ToShape` | lmf_gui/models.py:84-90 | The shape has two equal-length coordinate lists. The last vertex is at the center, and the first is one sigma to its left. Each y is the line shape's value at its x, for every sigma. For a valid line shape and positive sigma, the peak vertex's y is the peak height. |
| `Gaussian.FromShape` | lmf_gui/models.py:92-96 | It fails exactly when xs or ys is empty. Otherwise the center is the last x, and sigma is the non-negative distance between the first and last x (zero exactly when they coincide). A degenerate shape gives amplitude 0. For positive sigma, the amplitude is such that the peak height equals the last y. |
| `Gaussian.RoundTrip` | lmf_gui/models.py:84-96 | Reading back the shape of any positive-width peak (with or without overrides) gives exactly the peak's effective parameters. |
| `Gaussian.ReexportAfterDrag` | lmf_gui/models.py:84-96 | After any two-vertex drag of nonzero width, the re-exported shape keeps the dragged peak vertex and its y. The width vertex returns to the dragged position when it was left of the peak, and is mirrored to the left otherwise. |
| `Gaussian.UnitPeakScenario` | lmf_gui/models.py:86-96 | The peak {center 0, sigma 1, amplitude 1} is drawn at x = [-1, 0] and read back unchanged. |
| `Composite.Plus` | lmf_gui/models.py:54-56 | `a + b` is a node with children a, then b, whose operator adds. The components of the result are those of a followed by those of b. |
| `Composite.Minus` | lmf_gui/models.py:58-60 | `a - b` is a node with children a, then b, whose operator subtracts the right value from the left. The components keep that order. |
| `Composite.Times` | lmf_gui/models.py:62-64 | `a * b` is a node with children a, then b, whose operator multiplies. The components keep that order. |
| `Composite.Divide` | lmf_gui/models.py:66-68 | `a / b` (`__div__`) is a node with children a, then b, whose operator divides the left value by any nonzero right value. The components keep that order. |
| `Composite.TrueDivide` | lmf_gui/models.py:70-72 | `__truediv__` builds exactly the same node as `__div__`. |
| `Composite.Update` | lmf_gui/models.py:103-104 | The names after an update are the union of both name sets. An updated name takes the new entry, and every other name keeps its old entry. |
| `Composite.Guess` | lmf_gui/models.py:101-105 | Building the parameter set by successive updates, first with the left child's guess and then with the right child's, computes `GuessOf`. The result's names are the union of the children's names. |
| `Composite.GuessMergesChildren` | lmf_gui/models.py:101-105 | A composite's guess has the union of its children's names. A name the right child guesses takes the right entry, and a name only the left child guesses keeps the left entry. |
| `Composite.UpdateAssociative` | lmf_gui/models.py:103-104 | Two updates in a row equal one update with the merge of the two. |
| `Composite.UpdateAllAppend` | lmf_gui/models.py:102-104 | Updating with one sequence of guesses and then another equals updating with the two merged results. |
| `Composite.GuessIsUpdateAll` | lmf_gui/models.py:101-105 | The guess of any model tree equals an empty parameter set updated with every component's guess in turn, from leftmost to rightmost. |
| `Composite.UpdateAllLastWins` | lmf_gui/models.py:102-104 | A name is in the result of successive updates exactly when some update holds it. Its entry comes from the last update that holds it. |
| `Composite.GuessFromRightmostComponent` | lmf_gui/models.py:101-105 | A name is in a model's guess exactly when some component guesses it. Its entry comes from the rightmost component that guesses it. |
| `Composite.UpdateAllKeepsEntries` | lmf_gui/models.py:102-104 | When no two updates share a name, every entry of every update is in the result unchanged. |
| `Composite.UpdateAllSize` | lmf_gui/models.py:102-104 | When no two updates share a name, the result has as many entries as all the updates together. |
| `Composite.GuessOfDisjointComponents` | lmf_gui/models.py:101-105 | When the components guess pairwise disjoint names, the model's guess contains every component's guess unchanged, and its size is the sum of theirs. |
| `Composite.DistinctPrefixesDisjoint` | lmf_gui/models.py:101-105 | When every guessed name starts with its component's prefix and no prefix starts another, the components' guesses are pairwise disjoint. |
| `Composite.GuessKeepsEveryComponent` | lmf_gui/models.py:101-105 | With distinct prefixes (such as `g0_`, `g1_`), no entry is overwritten: each component's guess is kept whole, and the model's guess has the total number of entries. |

## Left out

- `interactive_guess` (lmf_gui/models.py:10-15) starts an interactive session with canvas event handling. `lmf_gui/interactive_guess.py` is not part of this model.
- The abstract base methods (lmf_gui/models.py:17-52) only raise `NotImplementedError`. The model has no unsupported-capability path, because every interactive component in it is a Gaussian.
- Parts of the fitting library are replaced or left out:
  - `make_params` becomes plain record construction; name prefixes, bounds and vary flags are not modelled.
  - `make_funcargs` becomes `FuncArgs`, over the three Gaussian arguments only.
  - The Gaussian evaluation becomes the `Lineshape` parameter.
  - A leaf component's `guess` becomes the `leafGuess` parameter.
  - `CompositeModel.eval` is not modelled. `Combine` gives only the meaning of the operator tag on one pair of values.
- Composite.Guess: the extra keyword arguments `**kws` that `guess` passes unchanged to both children (lmf_gui/models.py:101,103-104), such as `x`, are fixed for one call and folded into `leafGuess`, so they are not a separate argument.
- Composite.Update: lmfit's `Parameters` keeps insertion order, and a `map` does not, so the order of the merged parameter set is not modelled; only its names and entries are.
- `params=None` is not modelled: every call takes a full parameter set.
- Line 78 passes the overrides as `**kwargs` to `make_funcargs`, while line 85 passes them as `kwargs`. Both are modelled as one override-wins merge.
- Floating-point rounding, `np.clip` on NaN, and `np.sqrt`/`np.exp` are not modelled. sqrt(2*pi) is an abstract positive constant.
- Division by zero in a composite model's value (infinity or NaN in float arithmetic) is `None` in `Combine`.
- Gaussian.ToShape: the first vertex's y is stated only as the line shape's value there. Its relation to the peak height (a factor of exp(-1/2)) is not modelled, because only the value at the center is assumed of the Gaussian.
- `examples/gaussian_sum_example.py` is a launch script with random data and no logic of its own.
