# Parameter normalisation in svelte-knobs, modelled in Dafny

svelte-knobs draws knobs for a parameter. A parameter is a boolean, an enum, or a number on a
linear or logarithmic range. Each kind maps its values to a position in [0, 1] ("normalize")
and maps a position back to a value ("denormalize" / "unnormalize"). This project models that
engine and proves its round trips, its endpoints, its monotonicity and its error behaviour.

The repository has two generations of the engine, and they are modelled separately because
their contracts differ:

- The **functional generation** uses tagged object literals and free functions. It lives in
  `src/lib/params/range.ts`, `float-param.ts` and `enum-param.ts`, with the dispatching facade
  `src/lib/params.ts`. These become the modules `Ranges`, `FloatParams`, `EnumParams` and
  `Params`. Enum unnormalizing is strict: a position outside [0, 1] is a `RangeViolation`
  error. A value's index is its first occurrence.
- The **class generation** lives in `src/lib/params/bool.ts`, `lin.ts`, `log.ts` and
  `enum.ts`, and these become the modules `Bool`, `Lin`, `Log` and `Enum`.
  - `LinearParam`, `LogParam` and `EnumParam` are Dafny classes, because their fields are
    assigned in place.
  - `BoolParam` has no state, so its two methods are plain functions.
  - Enum denormalizing is lenient: the position is clamped into [0, 1] first.
  - A value's index comes from a dictionary that the constructor's loop fills, so the last
    duplicate wins (`Enum.LastIndexDictionary`).
  - `LogParam` caches the logarithms of its endpoints. Its setters keep the cache coherent,
    which is the class invariant `Valid()`.

Shared modules:

- `Scale` is the sign-aware logarithm `sign(v)·log_base(|v|+1)` and its inverse
  `sign(y)·(base^|y|−1)`. Both generations use them.
- `Affine` is the map `(a−lo)/(hi−lo)` and its inverse. Linear ranges use it directly, and
  logarithmic ranges use it in log space. The knob angle is its inverse at the clamped value,
  and the enum index is the floor of its inverse over [0, N−1].
- `Clamping` is the `clamp` helper.
- `Arc` is the knob-angle arithmetic of `src/lib/arc.ts`.
- `Alias` is the build-time path resolution of `src-build/resolve-alias.js`.
- `Results` holds the error and wrapper types.

Numbers are Dafny `real`s, so a round trip is an exact equality. The host's `Math.log10`,
`Math.log2`, `Math.log`, `Math.pow` and `Math.exp` are function values in a `Scale.MathLib`
record that is passed in as a parameter. Some lemmas need facts about these functions. Those
facts are stated as explicit hypotheses:

- `Scale.Coherent`: `log10` and `log2` are `ln` divided by ln 10 and ln 2, ln e = 1, and
  `exp` is `pow` in base e.
- `Scale.ExpInvertsLog`: `pow(base, ·)` inverts `log_base` above 1.
- `Scale.LogInvertsExp`: `log_base` inverts `pow(base, ·)` on positive exponents.
- `Scale.LnIncreasing`: ln 1 = 0 and `ln` is strictly increasing on [1, ∞).

Every lemma that needs one of them lists it in its `requires`. A thrown exception becomes an
`Err` value of `Results.Result`. The source's `default:` branches have no counterpart in the
model, because closed datatypes cannot take any other kind:

- "RangeType does not exist" (`createRange`) is ruled out by `Ranges.RangeType`.
- "Unsupported range type" (`normalize` and `unnormalize` of a float param, switching on
  `range.type`) is ruled out by `Ranges.Range`, whose constructors are the only range kinds.
- "Unsupported param type" is ruled out by `Params.Param`.

The two generations do not behave alike, and the model keeps each one as written:

- Enum positions outside [0, 1] are an error in the functional generation and are clamped in
  the class generation. The functional `unnormalizeToNumber` and `unnormalizeToString` raise
  `RangeError` (`EnumParams.UnnormalizeStrict`). The class `EnumParam` clamps the position
  first (`Enum.DenormalizeClamps`).
- The default log base differs. `createRange` defaults to base 10, and the class `LogParam`
  defaults to e (`Log.LogParam.constructor`).
- Duplicated variants are accepted by both generations. The functional engine resolves a
  duplicate to its first index, and the class engine to its last. Both round trips hold for
  duplicated variants too (`EnumParams.RoundTrip`, `Enum.RoundTrip`).
- No guard clamps the enum index to N−1, and over the reals none is needed: a position in
  [0, 1] always selects an index in [0, N−1] (`Enum.ClampedIndexBounds`,
  `EnumParams.IndexInBounds`).
- The `LinearParam` constructor sets a field only when its argument is truthy. An explicit 0
  is therefore ignored: `new LinearParam(-100, 0)` has `max == 1`
  (`Lin.ConstructionDefaults`).

## Model

| member | source | states |
|---|---|---|
| `Clamping.Clamp` | src/lib/params/enum.ts:40 | clamping into [lo, hi] stays within the bounds, keeps a value already inside, and maps values beyond either end to that end |
| `Ranges.CreateRange` | src/lib/params/range.ts:12-24 | the range carries exactly `min` and `max`; it is linear iff the kind is `'lin'`; a log range with no base gets base 10, and an explicit base is kept |
| `FloatParams.CreateFloatParam` | src/lib/params/float-param.ts:8-13 | a float param wraps exactly the range `createRange` builds from the same arguments |
| `FloatParams.Normalize` | src/lib/params/float-param.ts:14-29 | on a linear or a log range, `min` normalizes to 0 and `max` to 1 |
| `FloatParams.Unnormalize` | src/lib/params/float-param.ts:31-46 | on a linear range 0 and 1 give `min` and `max`; on a log range they give `exp(log(min))` and `exp(log(max))` |
| `FloatParams.LinearExtrapolates` | src/lib/params/float-param.ts:14-18 | no clamping: on an ascending linear range a value above `max` normalizes above 1 and one below `min` below 0 |
| `FloatParams.LinearMonotone` | src/lib/params/float-param.ts:14-18 | linear normalize is non-decreasing for `min < max` and non-increasing for `min > max` |
| `FloatParams.LogMonotone` | src/lib/params/float-param.ts:19-24 | when `ln` increases on [1, ∞), logarithmic normalize is non-decreasing for `min < max` and non-increasing for `min > max`, in every usable base |
| `FloatParams.LinearRoundTrip` | src/lib/params/float-param.ts:14-35 | linear `unnormalize(normalize(v)) == v` and `normalize(unnormalize(p)) == p` for all reals when `min != max` |
| `FloatParams.LogUnnormalizeEndpoints` | src/lib/params/float-param.ts:36-42 | under the inverse law on magnitudes above 1, log `unnormalize(0)` is `min` and `unnormalize(1)` is `max` |
| `FloatParams.LogRoundTrip` | src/lib/params/float-param.ts:14-46 | under the inverse laws, log normalize and unnormalize are mutually inverse for every real, ranges crossing zero included |
| `Scale.Log` | src/lib/params/float-param.ts:48-57 | the sign-aware logarithm of 0 is 0 in every accepted base |
| `Scale.Exp` | src/lib/params/float-param.ts:59-68 | the sign-aware exponential of 0 is 0 in every base |
| `Scale.LogOdd` | src/lib/params/float-param.ts:48-57 | `log(-v) == -log(v)` |
| `Scale.ExpOdd` | src/lib/params/float-param.ts:59-68 | `exp(-y) == -exp(y)` |
| `Scale.LogIsSignedLogBase` | src/lib/params/float-param.ts:48-57 | all four base branches (10, 2, e, other) compute `sign(v)·log_base(|v|+1)` |
| `Scale.ExpIsSignedPow` | src/lib/params/float-param.ts:59-68 | all four base branches compute `sign(y)·(base^|y| − 1)` |
| `Scale.ExpOfLog` | src/lib/params/float-param.ts:48-68 | under the inverse law on magnitudes above 1, `exp(log(v)) == v` for every real, zero and negatives included |
| `Scale.LogOfExp` | src/lib/params/float-param.ts:48-68 | under the inverse law on positive exponents, `log(exp(y)) == y` for every real |
| `Scale.SignedLnIncreasing` | src/lib/params/float-param.ts:48-57 | when `ln` increases on [1, ∞), `sign(v)·ln(|v|+1)` is strictly increasing on all reals, across zero |
| `Scale.LogIsScaledSignedLn` | src/lib/params/float-param.ts:48-57 | every base branch equals `sign(v)·ln(|v|+1) / ln(base)` |
| `Scale.LogPositionMonotone` | src/lib/params/float-param.ts:19-24 | a position in log space orders values as the endpoints are ordered, whatever the sign of ln(base) |
| `EnumParams.CreateEnumParam` | src/lib/params/enum-param.ts:8-13 | the param keeps the variants as given, in order |
| `EnumParams.FindIndex` | src/lib/params/enum-param.ts:16 | `findIndex` gives -1 iff the value is absent, and otherwise the first index holding it |
| `EnumParams.Normalize` | src/lib/params/enum-param.ts:15-23 | succeeds iff the value is a variant; otherwise fails with `InvalidVariant`; a position it returns lies in [0, 1] |
| `EnumParams.IndexPositionInUnit` | src/lib/params/enum-param.ts:22 | the position `i/(n-1)` of an index `i < n` lies in [0, 1] |
| `EnumParams.UnnormalizeToNumber` | src/lib/params/enum-param.ts:25-37 | a position outside [0, 1] is a `RangeViolation`, for any number of variants; a quantised position it returns lies in [0, 1] |
| `EnumParams.UnnormalizeToString` | src/lib/params/enum-param.ts:39-51 | a position outside [0, 1] is a `RangeViolation`; a variant it returns is one of the variants |
| `EnumParams.NormalizeFirstIndex` | src/lib/params/enum-param.ts:15-23 | normalize fails iff the value is no variant, with `InvalidVariant`; otherwise it is `i/(n-1)` for the first index `i` holding the value |
| `EnumParams.UnnormalizeStrict` | src/lib/params/enum-param.ts:25-51 | both unnormalize functions return `RangeViolation` exactly when the position is below 0 or above 1; outside [0, 1] this holds for a single-variant enum too |
| `EnumParams.IndexInBounds` | src/lib/params/enum-param.ts:32-35 | for a position in [0, 1] and `n ≥ 1`, `floor(p·(n-1))` lies in [0, n-1] |
| `EnumParams.UnnormalizeTotalOnUnitInterval` | src/lib/params/enum-param.ts:39-51 | with at least one variant, the "variant undefined" error cannot occur for a position in [0, 1] |
| `EnumParams.UnnormalizeEndpoints` | src/lib/params/enum-param.ts:39-51 | position 0 gives the first variant and position 1 the last |
| `EnumParams.RoundTrip` | src/lib/params/enum-param.ts:15-51 | every member, duplicated or not, unnormalizes back to itself from its normalized position |
| `EnumParams.Quantisation` | src/lib/params/enum-param.ts:25-37 | `unnormalizeToNumber(p)` is the position of index `floor(p·(n-1))`, lies in [0, p] less than one step `1/(n-1)` below `p`, and is a fixed point |
| `Params.TypeOf` | src/lib/params.ts:18-31 | for a well-typed value, `typeof` is `"string"` exactly for strings and `"number"` exactly for numbers |
| `Params.Normalize` | src/lib/params.ts:14-32 | for a well-typed value: a non-string for an enum param or a non-number for a float param is a `TypeMismatch` naming the `typeof`; otherwise the enum or float normalize is returned |
| `Params.UnnormalizeToNumber` | src/lib/params.ts:34-49 | dispatches by tag to the enum `unnormalizeToNumber` or the float `unnormalize`, with no further checks; a single-variant enum is accepted for a position outside [0, 1] |
| `Params.UnnormalizeToString` | src/lib/params.ts:51-66 | an enum param gives the enum `unnormalizeToString` result for any number of variants; a float param gives the float value rendered as text |
| `Params.Format` | src/lib/params.ts:68-87 | for a well-typed value: an enum param returns a string unchanged (membership unchecked) and rejects a non-string; a float param renders a number with precision 2 by default and rejects a non-number |
| `Params.EnumRoundTrip` | src/lib/params.ts:14-66 | through the facade, an enum variant normalizes and unnormalizes to itself |
| `Params.SingleVariantToString` | src/lib/params.ts:51-66 | a one-variant enum unnormalizes every position in [0, 1] to its variant and rejects any other position with `RangeViolation` |
| `Params.LinearRoundTrip` | src/lib/params.ts:14-49 | through the facade, a number on a linear range normalizes and unnormalizes to itself |
| `Bool.Normalize` | src/lib/params/bool.ts:8-10 | normalize gives 1 iff the value is true and 0 iff it is false |
| `Bool.Denormalize` | src/lib/params/bool.ts:12-14 | a position gives true exactly when it lies strictly beyond the midpoint of the positions of false and true |
| `Bool.DenormalizeThreshold` | src/lib/params/bool.ts:12-14 | denormalize is true exactly above 0.5 (strict): 0.5 and 0.49 give false, 0.51 gives true |
| `Bool.RoundTrip` | src/lib/params/bool.ts:8-14 | `denormalize(normalize(b)) == b` for both booleans |
| `Bool.SnapsToNearestEnd` | src/lib/params/bool.ts:8-14 | any position renormalizes to 0 up to and including one half, and to 1 above it |
| `Lin.LinearParam.constructor` | src/lib/params/lin.ts:3-11 | the endpoints default to 0 and 1 and are replaced only by truthy arguments (absent or zero arguments are ignored) |
| `Lin.ConstructionDefaults` | src/lib/params/lin.ts:4-10 | a default-constructed param has range [0, 1]; passing `max = 0` leaves `max == 1` |
| `Lin.LinearParam.Normalize` | src/lib/params/lin.ts:13-15 | `min` normalizes to 0 and `max` to 1 |
| `Lin.LinearParam.Denormalize` | src/lib/params/lin.ts:17-19 | 0 denormalizes to `min` and 1 to `max` |
| `Lin.RoundTrip` | src/lib/params/lin.ts:13-19 | denormalize and normalize are mutually inverse over the reals when `min != max` |
| `Lin.Monotone` | src/lib/params/lin.ts:13-15 | normalize is non-decreasing for `min < max` and non-increasing for `min > max` |
| `Lin.SymmetricRange` | src/lib/params/lin.ts:13-19 | with range (-50, 50): `normalize(0) == 0.5`, `denormalize(0.25) == -25`, `denormalize(0.75) == 25` |
| `Log.LogParam.LogOf` | src/lib/params/log.ts:11-20 | `#log(0)` is 0 |
| `Log.LogParam.ExpOf` | src/lib/params/log.ts:22-31 | `#exp(0)` is 0 |
| `Log.LogParam.Min` | src/lib/params/log.ts:38-40 | on a valid param, the `min` getter returns the endpoint whose logarithm is cached in `#logMin` |
| `Log.LogParam.Max` | src/lib/params/log.ts:47-49 | on a valid param, the `max` getter returns the endpoint whose logarithm is cached in `#logMax` |
| `Log.LogParam.constructor` | src/lib/params/log.ts:51-58 | the base is e unless one is given; the setters then establish the cache invariant and the getters return the arguments |
| `Log.LogParam.SetMin` | src/lib/params/log.ts:33-40 | the `min` setter changes only `#min` and `#logMin = #log(v)`; the getter then returns `v`; the invariant is kept |
| `Log.LogParam.SetMax` | src/lib/params/log.ts:42-49 | the `max` setter changes only `#max` and `#logMax = #log(v)`; the getter then returns `v`; the invariant is kept |
| `Log.ResetRange` | src/lib/params/log.ts:33-49 | setting both endpoints again on a valid param keeps the invariant, and the getters return the last values set |
| `Log.LogParam.Normalize` | src/lib/params/log.ts:60-62 | `min` normalizes to 0 and `max` to 1 when the cached logarithms differ |
| `Log.LogParam.Denormalize` | src/lib/params/log.ts:64-66 | 0 and 1 denormalize to `#exp(#logMin)` and `#exp(#logMax)` |
| `Log.DenormalizeEndpoints` | src/lib/params/log.ts:64-66 | under the inverse law, 0 and 1 denormalize to `min` and `max` |
| `Log.Monotone` | src/lib/params/log.ts:60-62 | when `ln` increases on [1, ∞), normalize is non-decreasing for `min < max` and non-increasing for `min > max`, whatever the base |
| `Log.RoundTrip` | src/lib/params/log.ts:60-66 | under the inverse laws, denormalize and normalize are mutually inverse for every real |
| `Log.LogExpOdd` | src/lib/params/log.ts:11-31 | `#log(0) == 0`, `#exp(0) == 0`, and both are odd |
| `Enum.LastIndexDictionary` | src/lib/params/enum.ts:25-29 | the dictionary's keys are exactly the variants, and each maps to the last index holding it |
| `Enum.EnumParam.constructor` | src/lib/params/enum.ts:18-30 | the loop leaves `dictSize == variants.length` and the last-index dictionary |
| `Enum.EnumParam.Normalize` | src/lib/params/enum.ts:32-37 | normalize succeeds iff the value is a variant, otherwise fails with "not a valid variant"; a position it returns lies in [0, 1] |
| `Enum.NormalizeIndex` | src/lib/params/enum.ts:25-37 | `variants[i]` normalizes to `k/(n-1)` where `k ≥ i` is its last occurrence (no later index holds it), and so to `i/(n-1)` for distinct variants |
| `Enum.NormalizeRejects` | src/lib/params/enum.ts:32-35 | a string that is no variant is rejected with `InvalidVariant` |
| `Enum.DistinctIndex` | src/lib/params/enum.ts:25-29 | with distinct variants the dictionary maps each variant to its own index |
| `Enum.ClampedIndexBounds` | src/lib/params/enum.ts:40-41 | the clamped index lies in [0, n-1] when `n ≥ 1` and is invalid when `n == 0` |
| `Enum.ClampedIndexEnds` | src/lib/params/enum.ts:40-41 | positions at or below 0 select index 0, and positions at or above 1 select index n-1 |
| `Enum.DenormalizeInBounds` | src/lib/params/enum.ts:39-44 | denormalize yields a variant iff there is at least one, and it reads the in-bounds clamped index |
| `Enum.DenormalizeClamps` | src/lib/params/enum.ts:39-44 | denormalize never fails: positions at or below 0 give the first variant, at or above 1 the last |
| `Enum.EnumParam.Denormalize` | src/lib/params/enum.ts:39-44 | a variant it returns is one of the variants |
| `Enum.EnumParam.SnapPoints` | src/lib/params/enum.ts:10-12 | there is one snap point per variant, and each lies in [0, 1] |
| `Enum.EnumParam.SnapThreshold` | src/lib/params/enum.ts:14-16 | with at least two variants the threshold lies in (0, 1] |
| `Enum.SnapPointAt` | src/lib/params/enum.ts:10-12 | with distinct variants the i-th snap point is `i/(n-1)` |
| `Enum.RoundTrip` | src/lib/params/enum.ts:32-44 | every member, duplicated or not, denormalizes back to itself from its normalized position |
| `Enum.SnapPointsSpaced` | src/lib/params/enum.ts:10-16 | for distinct variants there are n snap points, the i-th is `i/(n-1)`, and neighbours are `snapThreshold` apart |
| `Enum.ColourScenario` | src/lib/params/enum.ts:32-44 | with red/green/blue: positions 0, 0.5 and 1; 0.24 gives red, 0.74 gives green, and "yellow" is rejected |
| `Arc.ValueToAngle` | src/lib/arc.ts:29-31 | values at or below 0 give `minAngle`, and values at or above 1 give `maxAngle` |
| `Arc.ValueToAngleIsPoint` | src/lib/arc.ts:29-31 | the angle is the point at the clamped value on the segment from `minAngle` to `maxAngle` |
| `Arc.ValueToAngleBounded` | src/lib/arc.ts:29-31 | when `minAngle ≤ maxAngle`, every angle lies in [minAngle, maxAngle] |
| `Arc.ValueToAngleMonotone` | src/lib/arc.ts:29-31 | when `minAngle ≤ maxAngle`, the angle is non-decreasing in the value |
| `Arc.LargeArcFlag` | src/lib/arc.ts:21-25 | the flag is always `'0'` or `'1'` |
| `Arc.LargeArcFlagSweep` | src/lib/arc.ts:21-25 | the flag is `'1'` exactly when the swept angle (span times the clamped value) exceeds 180 |
| `Arc.LargeArcFlagShortArc` | src/lib/arc.ts:21-25 | an ascending arc spanning at most 180 degrees never sets the flag, whatever the value |
| `Arc.LargeArcFlagFullSweep` | src/lib/arc.ts:21-25 | at full sweep (value at or above 1) an arc spanning more than 180 degrees always sets the flag |
| `Alias.IndexFrom` | src-build/resolve-alias.js:14-15 | the search `includes`/`replace` rely on finds the first occurrence at or after a start index, or reports that there is none |
| `Alias.ReplaceFirst` | src-build/resolve-alias.js:15 | a string without the pattern is unchanged; otherwise exactly the first occurrence of the pattern is replaced, the text around it kept |
| `Alias.ResolveAliasWith` | src-build/resolve-alias.js:11-19 | a path containing no alias is unchanged; otherwise the first entry whose alias it contains has its first occurrence replaced |
| `Alias.ResolveAlias` | src-build/resolve-alias.js:3-19 | a path without `$lib` is unchanged, and one with it has its first `$lib` replaced by `src/lib` |
| `Alias.ResolveAliasReplacesFirst` | src-build/resolve-alias.js:3-19 | a path without `$lib` is unchanged; otherwise exactly its first `$lib` becomes `src/lib`, and the text before and after is kept |
| `Alias.AliasedPrefix` | src-build/resolve-alias.js:3-19 | a path starting with `$lib` resolves to the same path under `src/lib` |
| `Alias.ResolvePath` | src-build/resolve-alias.js:26-35 | paths starting with `./` or `../` are joined to the importing file's directory, and every other path goes through the alias |
| `Alias.ResolvePathBranch` | src-build/resolve-alias.js:26-35 | paths starting with `./` or `../` are joined to the importing file's directory, and `$lib` paths go through the alias |

## Left out

- Floating point is not modelled. Numbers are reals, so NaN, infinities, signed zero and
  rounding are absent. The host's log, pow and exp primitives are parameters, not
  definitions. The accuracy gained by special-casing bases 10, 2 and e is out of scope: the
  model only proves that the branches agree (`Scale.LogIsSignedLogBase`,
  `Scale.ExpIsSignedPow`).
- Scale.ExpOfLog: the inverse laws and coherence of the primitives are hypotheses, not facts
  proved about any concrete logarithm, because the primitives are not part of this model.
- Inputs on which the source divides by zero and yields NaN or an infinity are excluded by a
  `requires`:
  - a range with `min == max`;
  - endpoints whose logarithms coincide;
  - a member of a single-variant enum in normalize;
  - a position in [0, 1] of a single-variant enum in `unnormalizeToNumber`;
  - a single-variant enum in `Enum.EnumParam.SnapPoints`, where the source gives `[NaN]`;
  - a single-variant enum in `Enum.EnumParam.SnapThreshold`, where the source gives Infinity;
  - a base whose natural logarithm is 0.

  On a single-variant enum, a non-member still reaches the "not a valid variant" error, and a
  position outside [0, 1] still reaches the `RangeError`. `unnormalizeToString` accepts a
  single-variant enum for every position.
- Scale.ExpOfLog, Scale.LogOfExp, FloatParams.LogRoundTrip, FloatParams.LogUnnormalizeEndpoints,
  Log.RoundTrip and Log.DenormalizeEndpoints cover only bases above 1. Their inverse laws
  demand a positive logarithm above 1, which a base in (0, 1) does not have. For such a base
  the source's round trip does not hold either: `log_base(|v|+1)` is negative, so the sign
  of `log(v)` is flipped, and `exp(log(v))` is `v/(v+1)` for v > 0.
- FloatParams.LogMonotone, Log.Monotone: monotonicity rests on the hypothesis
  `Scale.LnIncreasing`, because the host's `Math.log` is a parameter of the model.
- The float branches of `format` and `unnormalizeToString` call `toFixed` and `toString`.
  These number-to-text conversions are function parameters of `Params.Format` and
  `Params.UnnormalizeToString`.
- `polarToCartesian` and the SVG path text of `describeArc` (`src/lib/arc.ts:3-27`) are
  trigonometry and number formatting. Only `valueToAngle` and the large-arc flag are modelled.
- The relative branch of `resolvePath` uses `path.dirname` and `path.join`. These are host
  library calls, passed in as function parameters, so only the branch choice is modelled.
- Enum.EnumParam.Normalize: the dictionary is a map, not a plain JavaScript object. Strings
  like `"toString"` reach `Object.prototype` in the source. There `normalize` would return
  NaN instead of throwing, and the model treats them as non-members.
- Enum.RoundTrip, Enum.NormalizeIndex: a variant named `"__proto__"` is stored like any other
  in the model, so both hold for it. In the source, `this.dictionary['__proto__'] = i`
  (`src/lib/params/enum.ts:28`) hits the prototype setter, which ignores a number. Its
  `normalize` then divides `Object.prototype` by `n - 1`, which is NaN, and the round trip
  fails for that variant.
- JavaScript truthiness of NaN is not modelled in the `LinearParam` constructor, because NaN
  is not a real.
- `$lib/helpers/clamp.js` and the `Param` base class in `./base.js` are not part of this
  model. Clamp is taken to be `min(max(v, lo), hi)` (`Clamping.Clamp`).
- `src/lib/index.ts`, `svelte.config.js` and `src-build/print-component.js` are left out.
  They are re-exports of UI components, and build-time preprocessing over the file system
  and a syntax highlighter.
- `range.base ?? 10` in the float normalize and unnormalize is a no-op in the model: a
  logarithmic range always carries a base there.
- `Params.JsValue` stands for any JavaScript value. A value outside strings and numbers is
  `JsOther` with its `typeof` name. `Params.WellTyped` excludes a `JsOther` that names
  `"string"` or `"number"`, which no real value can be. `Params.Normalize` and
  `Params.Format` require it.
- Private fields are public fields in the classes: `#min`, `#max`, `#logMin` and `#logMax` are
  `var`s, and `#logBase`, which only the constructor sets, is `const logBase`. The field
  `const math` of `Log.LogParam` has no source counterpart: it carries the host's math
  primitives (`Scale.MathLib`) into the class. The TypeScript generics over variant
  tuples are plain `seq<string>`.
