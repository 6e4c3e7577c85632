/**
  `measure_interactions` (python/interpret-core/interpret/utils/_measure_interactions.py):
  the cascade that decides between classification and regression, encodes the target,
  validates the initial scores and the sample weights, and configures the interaction
  ranker, whose output it reorders.

  The stage functions below specify each part of the cascade; `Prepare` composes them
  into the request handed to the ranker and `Measure` adds the final reordering. The
  method `MeasureInteractions` runs the same cascade the way the source does, by
  reassigning its locals in order, and is proved to compute `Measure`.

  The native library, scikit-learn's `type_of_target`, the cleaning helpers, the
  binning library and the ranking kernel are not modelled; what the cascade consumes
  from them is an input (`Inputs`) or a function in `Collaborators`.
 */
module InteractionMeasure {
  import opened Wrappers
  import opened TargetEncoding
  import opened Candidates

  /** `max_cardinality`: the joint-cell ceiling handed to the ranker (line 73). */
  const MaxCardinality: nat := 1048576

  /** What the cleaning of the initial scores yields: `ndim` and `shape[1]` (the latter
      only meaningful when `ndim` is at least 2). */
  datatype ScoreShape = ScoreShape(ndim: nat, width: nat)

  /** The `init_score` argument: absent, a fitted model (recognised by `is_classifier` or
      `is_regressor`), or a raw score array. Each present form carries the shape that
      `clean_init_score_and_X` turns it into. */
  datatype InitScore =
    | NoInitScore
    | ClassifierModel(classes: seq<Label>, cleaned: ScoreShape)
    | RegressorModel(cleaned: ScoreShape)
    | RawScores(cleaned: ScoreShape)

  /** `sample_weight` after `clean_dimensions`: its `ndim` and its length. */
  datatype WeightShape = WeightShape(ndim: nat, length: nat)

  /** The guesses of `type_of_target` the cascade distinguishes. */
  datatype TargetType = Continuous | Binary | Multiclass | OtherTargetType

  /** What `get_output_type` says of a link. */
  datatype OutputType = ClassificationOutput | RegressionOutput | OtherOutput

  /** What `determine_link` returns: the link and its parameter. */
  datatype LinkChoice = LinkChoice(link: string, param: real)

  /** The `interactions` argument: an integer, None, or an explicit list of terms. */
  datatype Interactions = TopK(k: int) | AllPairs | Explicit(terms: seq<Term>)

  /** The target after encoding: class indices into `classes`, or the regression values
      (the cast to float64 is not modelled). */
  datatype Target =
    | ClassIndices(classes: seq<Label>, indices: seq<nat>)
    | RegressionValues(values: seq<Label>)

  /** The arguments of `construct_bins` that the cascade fixes. */
  datatype BinRequest = BinRequest(
    target: Target,
    weights: Option<WeightShape>,
    maxBinsLeveled: seq<int>,
    binning: string,
    minSamplesBin: int,
    minUniqueContinuous: int)

  /** The arguments of `bin_native_by_dimension`. */
  datatype Dataset = Dataset(
    nClasses: int,
    nDimensions: nat,
    nFeatures: nat,
    target: Target,
    weights: Option<WeightShape>)

  /** The arguments of `rank_interactions`. */
  datatype RankRequest = RankRequest(
    dataset: Dataset,
    initScores: Option<ScoreShape>,
    candidates: seq<Term>,
    exclude: set<Term>,
    maxCardinality: nat,
    minSamplesLeaf: int,
    isPrivate: bool,
    objective: string,
    nOutputInteractions: int)

  /** The external collaborators. `determineLink` returns None where the native library
      raises; `constructBins` gives the number of binned features (`len(bins)`);
      `rankInteractions` gives the ranker's items, each `(strength, term)`. */
  datatype Collaborators = Collaborators(
    determineLink: (bool, string) -> Option<LinkChoice>,
    outputType: string -> OutputType,
    constructBins: BinRequest -> nat,
    rankInteractions: RankRequest -> seq<(real, Term)>)

  /** The arguments of `measure_interactions` as the cascade sees them. `yNdim` is
      `y.ndim` after `clean_dimensions`; `targetType` is what `type_of_target` says of y. */
  datatype Inputs = Inputs(
    yNdim: nat,
    y: seq<Label>,
    interactions: Interactions,
    initScore: InitScore,
    sampleWeight: Option<WeightShape>,
    maxInteractionBins: int,
    minSamplesLeaf: int,
    objective: Option<string>,
    targetType: TargetType)

  datatype Error =
    | TargetNotOneDimensional                  // lines 76-79
    | EmptyTarget                              // lines 80-83
    | LinkLookupFailed(objective: string)      // determine_link raises
    | UnknownObjective(objective: string)      // lines 101-104
    | RegressionObjectiveClassifierModel       // lines 110-113
    | ClassificationObjectiveRegressorModel    // lines 118-121
    | RegressionObjectiveMatrixScore           // lines 134-137
    | UnrecognizedTargetType                   // line 161
    | UnknownLabel(missing: Label)             // KeyError at line 170
    | InitScoreShapeMismatch                   // lines 183-197
    | WeightsNotOneDimensional                 // line 203
    | WeightLengthMismatch(ySamples: nat, weightSamples: nat)  // lines 205-207

  /** The locals the resolution cascade reassigns. */
  datatype Resolution = Resolution(
    objective: Option<string>,
    link: Option<string>,
    linkParam: Option<real>,
    isClassification: Option<bool>,
    classes: Option<seq<Label>>)

  const Unresolved := Resolution(None, None, None, None, None)

  /** The characters for which Python's `str.isspace` holds. */
  predicate IsPythonSpace(c: char) {
    || ('\t' <= c <= '\r')
    || ('\U{1c}' <= c <= ' ')
    || c == '\U{85}' || c == '\U{a0}' || c == '\U{1680}'
    || ('\U{2000}' <= c <= '\U{200a}')
    || c == '\U{2028}' || c == '\U{2029}' || c == '\U{202f}' || c == '\U{205f}' || c == '\U{3000}'
  }

  /** `s.isspace()`: non-empty and whitespace throughout (so "" is not blank). */
  predicate IsBlank(s: string) {
    |s| > 0 && forall k :: 0 <= k < |s| ==> IsPythonSpace(s[k])
  }

  /** No objective was named: absent or blank. */
  predicate ObjectiveAbsent(objective: Option<string>) {
    objective.None? || IsBlank(objective.value)
  }

  /** Lines 87-104: a named objective fixes the problem kind through its link. */
  function ResolveObjective(objective: Option<string>, env: Collaborators): (r: Result<Resolution, Error>)
    ensures ObjectiveAbsent(objective) ==> r == Success(Unresolved)
    ensures !ObjectiveAbsent(objective) ==>
      var c := env.determineLink(false, objective.value);
      && (c.None? <==> r == Failure(LinkLookupFailed(objective.value)))
      && (c.Some? && env.outputType(c.value.link) == ClassificationOutput ==>
            r.Success? && r.value.isClassification == Some(true))
      && (c.Some? && env.outputType(c.value.link) == RegressionOutput ==>
            r.Success? && r.value.isClassification == Some(false))
      && (c.Some? && env.outputType(c.value.link) == OtherOutput <==> r == Failure(UnknownObjective(objective.value)))
      && (r.Success? ==>
            && r.value.objective == objective
            && r.value.link == Some(c.value.link)
            && r.value.linkParam == Some(c.value.param)
            && r.value.isClassification.Some?
            && r.value.classes.None?)
    ensures r.Failure? ==>
      !ObjectiveAbsent(objective) && r.error in {LinkLookupFailed(objective.value), UnknownObjective(objective.value)}
  {
    if ObjectiveAbsent(objective) then Success(Unresolved)
    else
      var choice := env.determineLink(false, objective.value);
      if choice.None? then Failure(LinkLookupFailed(objective.value))
      else
        var link, param := Some(choice.value.link), Some(choice.value.param);
        match env.outputType(choice.value.link)
        case ClassificationOutput => Success(Resolution(objective, link, param, Some(true), None))
        case RegressionOutput => Success(Resolution(objective, link, param, Some(false), None))
        case OtherOutput => Failure(UnknownObjective(objective.value))
  }

  /** The kind the objective fixes, if it names one that resolves. */
  function KindFromObjective(objective: Option<string>, env: Collaborators): Option<bool> {
    match ResolveObjective(objective, env)
    case Success(st) => st.isClassification
    case Failure(_) => None
  }

  /** Lines 106-124: a fitted model as baseline fixes the kind, and a classifier supplies
      the class catalog; a kind already fixed the other way is a conflict. */
  function ApplyBaselineModel(st: Resolution, initScore: InitScore, env: Collaborators): (r: Result<Resolution, Error>)
    ensures !initScore.ClassifierModel? && !initScore.RegressorModel? ==> r == Success(st)
    ensures initScore.ClassifierModel? ==>
      && (st.isClassification == Some(false) ==> r == Failure(RegressionObjectiveClassifierModel))
      && (r.Success? ==> r.value.isClassification == Some(true) && r.value.classes == Some(initScore.classes))
    ensures initScore.RegressorModel? ==>
      && (st.isClassification == Some(true) ==> r == Failure(ClassificationObjectiveRegressorModel))
      && (r.Success? ==> r.value.isClassification == Some(false) && r.value.classes == st.classes)
    ensures initScore.ClassifierModel? && st.isClassification != Some(false) ==>
      var c := env.determineLink(false, "log_loss");
      && (r.Success? <==> st.link.Some? || c.Some?)
      && (r.Failure? ==> r.error == LinkLookupFailed("log_loss"))
      && (r.Success? && st.link.None? ==> r.value.link == Some(c.value.link))
    ensures initScore.RegressorModel? && st.isClassification != Some(true) ==>
      var c := env.determineLink(false, "rmse");
      && (r.Success? <==> st.link.Some? || c.Some?)
      && (r.Failure? ==> r.error == LinkLookupFailed("rmse"))
      && (r.Success? && st.link.None? ==> r.value.link == Some(c.value.link))
    ensures r.Success? ==> r.value.objective == st.objective && r.value.linkParam == st.linkParam
    ensures r.Success? && st.link.Some? ==> r.value.link == st.link
  {
    match initScore
    case ClassifierModel(classes, _) =>
      if st.isClassification == Some(false) then Failure(RegressionObjectiveClassifierModel)
      else if st.link.Some? then Success(st.(isClassification := Some(true), classes := Some(classes)))
      else
        var choice := env.determineLink(false, "log_loss");
        if choice.None? then Failure(LinkLookupFailed("log_loss"))
        else Success(st.(isClassification := Some(true), classes := Some(classes), link := Some(choice.value.link)))
    case RegressorModel(_) =>
      if st.isClassification == Some(true) then Failure(ClassificationObjectiveRegressorModel)
      else if st.link.Some? then Success(st.(isClassification := Some(false)))
      else
        var choice := env.determineLink(false, "rmse");
        if choice.None? then Failure(LinkLookupFailed("rmse"))
        else Success(st.(isClassification := Some(false), link := Some(choice.value.link)))
    case _ => Success(st)
  }

  /** The cleaned initial scores are a matrix (`ndim == 2`). */
  predicate ScoresAreMatrix(initScore: InitScore) {
    !initScore.NoInitScore? && initScore.cleaned.ndim == 2
  }

  /** Lines 126-138: scores with a second dimension force classification. */
  function ApplyCleanedScore(st: Resolution, initScore: InitScore): (r: Result<Resolution, Error>)
    ensures !ScoresAreMatrix(initScore) ==> r == Success(st)
    ensures ScoresAreMatrix(initScore) ==>
      if st.isClassification == Some(false) then r == Failure(RegressionObjectiveMatrixScore)
      else r == Success(st.(isClassification := Some(true)))
  {
    if ScoresAreMatrix(initScore) then
      if st.isClassification == Some(false) then Failure(RegressionObjectiveMatrixScore)
      else Success(st.(isClassification := Some(true)))
    else Success(st)
  }

  /** Lines 140-161: only when nothing fixed the kind, the target-type guess decides it;
      a multiclass guess with initial scores present is overridden to regression. */
  function GuessFromTarget(st: Resolution, targetType: TargetType, hasInitScore: bool): (r: Result<Resolution, Error>)
    ensures st.isClassification.Some? ==> r == Success(st)
    ensures r.Success? ==> r.value.isClassification.Some? && r.value == st.(isClassification := r.value.isClassification)
    ensures st.isClassification.None? ==>
      match targetType
      case Continuous => r == Success(st.(isClassification := Some(false)))
      case Binary => r == Success(st.(isClassification := Some(true)))
      case Multiclass => r == Success(st.(isClassification := Some(!hasInitScore)))
      case OtherTargetType => r == Failure(UnrecognizedTargetType)
  {
    if st.isClassification.Some? then Success(st)
    else
      match targetType
      case Continuous => Success(st.(isClassification := Some(false)))
      case Binary => Success(st.(isClassification := Some(true)))
      case Multiclass =>
        if hasInitScore then Success(st.(isClassification := Some(false)))
        else Success(st.(isClassification := Some(true)))
      case OtherTargetType => Failure(UnrecognizedTargetType)
  }

  /** No evidence before the target-type guess: no objective named, no fitted model, and
      no matrix of scores. */
  predicate KindLeftToGuess(inp: Inputs) {
    && ObjectiveAbsent(inp.objective)
    && !inp.initScore.ClassifierModel?
    && !inp.initScore.RegressorModel?
    && !ScoresAreMatrix(inp.initScore)
  }

  /** Lines 85-161: the priority-ordered resolution of the problem kind. Each source of
      evidence that speaks fixes the kind, and every later one either agrees or fails;
      the target-type guess is consulted only when none spoke. */
  function ResolveKind(inp: Inputs, env: Collaborators): (r: Result<Resolution, Error>)
    ensures r.Success? ==> r.value.isClassification.Some?
    ensures r.Success? ==> r.value.objective == (if ObjectiveAbsent(inp.objective) then None else inp.objective)
    ensures r.Success? && KindFromObjective(inp.objective, env).Some? ==>
      r.value.isClassification == KindFromObjective(inp.objective, env)
    ensures r.Success? && inp.initScore.ClassifierModel? ==>
      r.value.isClassification == Some(true) && r.value.classes == Some(inp.initScore.classes)
    ensures r.Success? && !inp.initScore.ClassifierModel? ==> r.value.classes.None?
    ensures r.Success? && inp.initScore.RegressorModel? ==> r.value.isClassification == Some(false)
    ensures r.Success? && ScoresAreMatrix(inp.initScore) ==> r.value.isClassification == Some(true)
    ensures KindFromObjective(inp.objective, env) == Some(false) && inp.initScore.ClassifierModel? ==>
      r == Failure(RegressionObjectiveClassifierModel)
    ensures KindFromObjective(inp.objective, env) == Some(true) && inp.initScore.RegressorModel? ==>
      r == Failure(ClassificationObjectiveRegressorModel)
    ensures KindFromObjective(inp.objective, env) == Some(false) && inp.initScore.RawScores? && ScoresAreMatrix(inp.initScore) ==>
      r == Failure(RegressionObjectiveMatrixScore)
    ensures ObjectiveAbsent(inp.objective) && inp.initScore.ClassifierModel? && env.determineLink(false, "log_loss").None? ==>
      r == Failure(LinkLookupFailed("log_loss"))
    ensures ObjectiveAbsent(inp.objective) && inp.initScore.RegressorModel? && env.determineLink(false, "rmse").None? ==>
      r == Failure(LinkLookupFailed("rmse"))
    ensures ResolveObjective(inp.objective, env).Failure? ==> r == Failure(ResolveObjective(inp.objective, env).error)
    ensures KindLeftToGuess(inp) ==>
      match inp.targetType
      case Continuous => r.Success? && r.value.isClassification == Some(false)
      case Binary => r.Success? && r.value.isClassification == Some(true)
      case Multiclass => r.Success? && r.value.isClassification == Some(inp.initScore.NoInitScore?)
      case OtherTargetType => r == Failure(UnrecognizedTargetType)
    // The cascade fails only at one of the source's error exits.
    ensures r.Failure? ==>
      || (ResolveObjective(inp.objective, env).Failure? && r.error == ResolveObjective(inp.objective, env).error)
      || (r.error == RegressionObjectiveClassifierModel &&
          KindFromObjective(inp.objective, env) == Some(false) && inp.initScore.ClassifierModel?)
      || (r.error == ClassificationObjectiveRegressorModel &&
          KindFromObjective(inp.objective, env) == Some(true) && inp.initScore.RegressorModel?)
      || (r.error == RegressionObjectiveMatrixScore && ScoresAreMatrix(inp.initScore) &&
          (inp.initScore.RegressorModel? || KindFromObjective(inp.objective, env) == Some(false)))
      || (r.error == LinkLookupFailed("log_loss") && ObjectiveAbsent(inp.objective) &&
          inp.initScore.ClassifierModel? && env.determineLink(false, "log_loss").None?)
      || (r.error == LinkLookupFailed("rmse") && ObjectiveAbsent(inp.objective) &&
          inp.initScore.RegressorModel? && env.determineLink(false, "rmse").None?)
      || (r.error == UnrecognizedTargetType && KindLeftToGuess(inp) && inp.targetType == OtherTargetType)
  {
    var st1 :- ResolveObjective(inp.objective, env);
    var st2 :- ApplyBaselineModel(st1, inp.initScore, env);
    var st3 :- ApplyCleanedScore(st2, inp.initScore);
    GuessFromTarget(st3, inp.targetType, !inp.initScore.NoInitScore?)
  }

  /** Once an earlier rule has decided the kind (or failed), the target-type guess plays
      no part. */
  lemma TargetTypeIgnoredOnceDecided(inp: Inputs, env: Collaborators, t: TargetType)
    requires !KindLeftToGuess(inp)
    ensures ResolveKind(inp, env) == ResolveKind(inp.(targetType := t), env)
  {
  }

  /** A regressor baseline can never accompany scores that are a matrix. */
  lemma RegressorWithMatrixScoresFails(inp: Inputs, env: Collaborators)
    requires inp.initScore.RegressorModel? && ScoresAreMatrix(inp.initScore)
    ensures ResolveKind(inp, env).Failure?
  {
  }

  /** Lines 163-176: the target as class indices (from the sorted distinct labels, or
      from the catalog of a classifier baseline), or the regression values. */
  function EncodeTarget(isClassification: bool, catalog: Option<seq<Label>>, y: seq<Label>): (r: Result<Target, Error>)
    ensures !isClassification ==> r == Success(RegressionValues(y))
    ensures isClassification && r.Success? ==>
      r.value.ClassIndices? && DecodesTo(r.value.classes, r.value.indices, y)
    ensures isClassification && catalog.None? ==>
      r.Success? && StrictlyIncreasing(r.value.classes) && forall v :: v in r.value.classes <==> v in y
    ensures isClassification && catalog.Some? ==>
      && (r.Success? <==> forall k :: 0 <= k < |y| ==> y[k] in catalog.value)
      && (r.Success? ==> r.value.classes == catalog.value)
      && (r.Failure? ==> r.error.UnknownLabel? && r.error.missing in y && r.error.missing !in catalog.value)
      && (r.Failure? ==> exists k :: 0 <= k < |y| && y[k] == r.error.missing && forall j :: 0 <= j < k ==> y[j] in catalog.value)
  {
    if !isClassification then Success(RegressionValues(y))
    else if catalog.None? then
      var (classes, indices) := EncodeSorted(y);
      Success(ClassIndices(classes, indices))
    else
      match EncodeWithCatalog(catalog.value, y)
      case Success(indices) => Success(ClassIndices(catalog.value, indices))
      case Failure(missing) => Failure(UnknownLabel(missing))
  }

  /** `n_classes`: the number of classes, or -1 for regression. */
  function ClassCount(target: Target): (n: int)
    ensures target.RegressionValues? <==> n == -1
    ensures target.ClassIndices? ==> n == |target.classes|
  {
    match target
    case ClassIndices(classes, _) => |classes|
    case RegressionValues(_) => -1
  }

  /** A classification target of a non-empty y has at least one class. */
  lemma ClassCountPositive(isClassification: bool, catalog: Option<seq<Label>>, y: seq<Label>)
    requires |y| > 0 && isClassification && EncodeTarget(isClassification, catalog, y).Success?
    ensures ClassCount(EncodeTarget(isClassification, catalog, y).value) >= 1
  {
  }

  /** Lines 180-198: the initial scores must agree with the class count; for a single
      class they are discarded. A kept score is unchanged. */
  function ValidateInitScore(nClasses: int, initScore: InitScore): (r: Result<Option<ScoreShape>, Error>)
    ensures initScore.NoInitScore? ==> r == Success(None)
    ensures r.Success? && r.value.Some? ==> !initScore.NoInitScore? && r.value.value == initScore.cleaned
    ensures !initScore.NoInitScore? && (nClasses == 2 || nClasses == -1) ==>
      (r.Success? <==> initScore.cleaned.ndim == 1) && (r.Success? ==> r.value.Some?)
    ensures !initScore.NoInitScore? && 3 <= nClasses ==>
      (r.Success? <==> initScore.cleaned.ndim == 2 && initScore.cleaned.width == nClasses) && (r.Success? ==> r.value.Some?)
    ensures !initScore.NoInitScore? && nClasses == 1 ==>
      (r.Success? <==> !(initScore.cleaned.ndim == 2 && 2 <= initScore.cleaned.width)) && (r.Success? ==> r.value.None?)
    ensures r.Failure? ==> r.error == InitScoreShapeMismatch
  {
    if initScore.NoInitScore? then Success(None)
    else
      var s := initScore.cleaned;
      if nClasses == 2 || nClasses == -1 then
        if s.ndim != 1 then Failure(InitScoreShapeMismatch) else Success(Some(s))
      else if 3 <= nClasses then
        if s.ndim != 2 || s.width != nClasses then Failure(InitScoreShapeMismatch) else Success(Some(s))
      else if s.ndim == 2 && 2 <= s.width then Failure(InitScoreShapeMismatch)
      else Success(None)
  }

  /** Lines 200-208: weights must be one-dimensional and as long as y. */
  function CheckSampleWeight(w: Option<WeightShape>, nSamples: nat): (r: Result<Option<WeightShape>, Error>)
    ensures r.Success? <==> w.None? || (w.value.ndim == 1 && w.value.length == nSamples)
    ensures r.Success? ==> r.value == w
    ensures r.Failure? && w.value.ndim == 1 ==> r.error == WeightLengthMismatch(nSamples, w.value.length)
    ensures r.Failure? && w.value.ndim != 1 ==> r.error == WeightsNotOneDimensional
  {
    if w.None? then Success(None)
    else if w.value.ndim != 1 then Failure(WeightsNotOneDimensional)
    else if nSamples != w.value.length then Failure(WeightLengthMismatch(nSamples, w.value.length))
    else Success(w)
  }

  /** Lines 238-246: the candidates and the number of results asked for. An integer K
      asks for the top K of all pairs, None for all pairs, and an explicit list is
      evaluated as given with no trimming. */
  function EnumerateCandidates(interactions: Interactions, nFeatures: nat): (r: (seq<Term>, int))
    ensures interactions.Explicit? ==> r.0 == interactions.terms && r.1 == 0
    ensures !interactions.Explicit? ==>
      && (forall t :: t in r.0 ==> IsPairBelow(t, nFeatures))
      && (forall p, q :: 0 <= p < q < |r.0| ==> LexBefore(r.0[p], r.0[q]))
      && 2 * |r.0| == nFeatures * (nFeatures - 1)
      && r.1 == (if interactions.TopK? then interactions.k else 0)
  {
    match interactions
    case TopK(k) => (Combinations2(nFeatures), k)
    case AllPairs => (Combinations2(nFeatures), 0)
    case Explicit(terms) => (terms, 0)
  }

  /** Line 263: each item of the ranker, a 2-tuple, is reversed; the order of the items
      is kept. */
  function ReverseEach<A, B>(s: seq<(A, B)>): (r: seq<(B, A)>)
    ensures |r| == |s|
    ensures forall k :: 0 <= k < |s| ==> r[k].0 == s[k].1 && r[k].1 == s[k].0
  {
    if s == [] then [] else [(s[0].1, s[0].0)] + ReverseEach(s[1..])
  }

  /** Reversing twice gives back the ranker's items. */
  lemma ReverseEachTwice<A, B>(s: seq<(A, B)>)
    ensures ReverseEach(ReverseEach(s)) == s
  {
  }

  /** Items the ranker returns by non-increasing strength come out in the same order,
      strength now second. */
  lemma ReverseEachKeepsStrengthOrder(ranked: seq<(real, Term)>)
    requires forall p, q :: 0 <= p < q < |ranked| ==> ranked[q].0 <= ranked[p].0
    ensures forall p, q :: 0 <= p < q < |ReverseEach(ranked)| ==> ReverseEach(ranked)[q].1 <= ReverseEach(ranked)[p].1
  {
  }

  /** Lines 72-261: everything up to the call of the ranker, as the request it gets. The
      checks fail in source order, each with its own error, and the preparation succeeds
      exactly when none of them fails. */
  function Prepare(inp: Inputs, env: Collaborators): (r: Result<RankRequest, Error>)
    ensures inp.yNdim != 1 ==> r == Failure(TargetNotOneDimensional)
    ensures inp.yNdim == 1 && |inp.y| == 0 ==> r == Failure(EmptyTarget)
    ensures inp.yNdim == 1 && |inp.y| > 0 && ResolveKind(inp, env).Failure? ==>
      r == Failure(ResolveKind(inp, env).error)
    ensures inp.yNdim == 1 && |inp.y| > 0 && ResolveKind(inp, env).Success? ==>
      var kind := ResolveKind(inp, env).value;
      var encoded := EncodeTarget(kind.isClassification == Some(true), kind.classes, inp.y);
      && (encoded.Failure? ==> r == Failure(encoded.error))
      && (encoded.Success? ==>
            var validated := ValidateInitScore(ClassCount(encoded.value), inp.initScore);
            && (validated.Failure? ==> r == Failure(InitScoreShapeMismatch))
            && (validated.Success? ==>
                  var weighed := CheckSampleWeight(inp.sampleWeight, |inp.y|);
                  && (weighed.Failure? ==> r == Failure(weighed.error))
                  && (weighed.Success? ==> r.Success?)))
    ensures r.Success? ==> inp.yNdim == 1 && |inp.y| > 0 && ResolveKind(inp, env).Success?
    // The encoded target and the class count.
    ensures r.Success? ==>
      var kind, data := ResolveKind(inp, env).value, r.value.dataset;
      && (data.target.RegressionValues? <==> kind.isClassification == Some(false))
      && (data.nClasses == -1 <==> kind.isClassification == Some(false))
      && (data.target.RegressionValues? ==> data.target.values == inp.y)
      && (data.target.ClassIndices? ==>
            && DecodesTo(data.target.classes, data.target.indices, inp.y)
            && data.nClasses == |data.target.classes| >= 1
            && (kind.classes.Some? ==> data.target.classes == kind.classes.value)
            && (kind.classes.None? ==>
                  StrictlyIncreasing(data.target.classes) && forall v :: v in data.target.classes <==> v in inp.y))
    // The objective, the initial scores and the weights.
    ensures r.Success? ==>
      var req := r.value;
      var nClasses := req.dataset.nClasses;
      && req.objective == (if !ObjectiveAbsent(inp.objective) then inp.objective.value
                           else if nClasses == -1 then "rmse" else "log_loss")
      && (req.initScores.Some? ==> !inp.initScore.NoInitScore? && req.initScores.value == inp.initScore.cleaned)
      && (req.initScores.Some? ==> nClasses != 1)
      && (req.initScores.Some? && (nClasses == 2 || nClasses == -1) ==> req.initScores.value.ndim == 1)
      && (req.initScores.Some? && 3 <= nClasses ==>
            req.initScores.value.ndim == 2 && req.initScores.value.width == nClasses)
      && (!inp.initScore.NoInitScore? && nClasses != 1 ==> req.initScores.Some?)
      && (inp.initScore.NoInitScore? ==> req.initScores.None?)
      && req.dataset.weights == inp.sampleWeight
      && (inp.sampleWeight.Some? ==> inp.sampleWeight.value.ndim == 1 && inp.sampleWeight.value.length == |inp.y|)
    // The binning request, the candidates and the constants.
    ensures r.Success? ==>
      var req := r.value;
      && req.dataset.nFeatures == env.constructBins(
           BinRequest(req.dataset.target, req.dataset.weights, [inp.maxInteractionBins], "quantile", 1, 0))
      && (inp.interactions.Explicit? ==> req.candidates == inp.interactions.terms && req.nOutputInteractions == 0)
      && (inp.interactions.TopK? ==> req.nOutputInteractions == inp.interactions.k)
      && (inp.interactions.AllPairs? ==> req.nOutputInteractions == 0)
      && (!inp.interactions.Explicit? ==> req.candidates == Combinations2(req.dataset.nFeatures))
      && req.exclude == {} && req.maxCardinality == MaxCardinality && !req.isPrivate
      && req.minSamplesLeaf == inp.minSamplesLeaf && req.dataset.nDimensions == 2
  {
    if inp.yNdim != 1 then Failure(TargetNotOneDimensional)
    else if |inp.y| == 0 then Failure(EmptyTarget)
    else
      var kind :- ResolveKind(inp, env);
      var isClassification := kind.isClassification == Some(true);
      var target :- EncodeTarget(isClassification, kind.classes, inp.y);
      var nClasses := ClassCount(target);
      var objective :=
        if kind.objective.Some? then kind.objective.value
        else if isClassification then "log_loss" else "rmse";
      var initScores :- ValidateInitScore(nClasses, inp.initScore);
      var weights :- CheckSampleWeight(inp.sampleWeight, |inp.y|);
      var nFeatures := env.constructBins(BinRequest(target, weights, [inp.maxInteractionBins], "quantile", 1, 0));
      var (candidates, nOutput) := EnumerateCandidates(inp.interactions, nFeatures);
      var dataset := Dataset(nClasses, 2, nFeatures, target, weights);
      Success(RankRequest(dataset, initScores, candidates, {}, MaxCardinality, inp.minSamplesLeaf, false, objective, nOutput))
  }

  /** Ordinary input reaches the ranker: a 1-D non-empty y, an objective that resolves
      (or none, with a recognised target type), no initial scores, and weights that are
      absent or match y. */
  lemma PlainInputSucceeds(inp: Inputs, env: Collaborators)
    requires inp.yNdim == 1 && |inp.y| > 0
    requires ResolveObjective(inp.objective, env).Success?
    requires ObjectiveAbsent(inp.objective) ==> inp.targetType != OtherTargetType
    requires inp.initScore.NoInitScore?
    requires inp.sampleWeight.Some? ==> inp.sampleWeight.value.ndim == 1 && inp.sampleWeight.value.length == |inp.y|
    ensures Prepare(inp, env).Success? && Measure(inp, env).Success?
  {
    assert ResolveKind(inp, env).Success?;
  }

  /** The whole of `measure_interactions`: the ranker's items for the prepared request,
      each reversed. */
  function Measure(inp: Inputs, env: Collaborators): (r: Result<seq<(Term, real)>, Error>)
    ensures r.Success? <==> Prepare(inp, env).Success?
    ensures r.Failure? ==> r.error == Prepare(inp, env).error
    ensures r.Success? ==>
      var ranked := env.rankInteractions(Prepare(inp, env).value);
      |r.value| == |ranked| && forall k :: 0 <= k < |ranked| ==> r.value[k] == (ranked[k].1, ranked[k].0)
  {
    var request :- Prepare(inp, env);
    Success(ReverseEach(env.rankInteractions(request)))
  }

  /** A blank objective is treated as no objective at all. */
  lemma BlankObjectiveIsAbsent(inp: Inputs, env: Collaborators)
    requires inp.objective.Some? && IsBlank(inp.objective.value)
    ensures Measure(inp, env) == Measure(inp.(objective := None), env)
  {
    assert ResolveKind(inp, env) == ResolveKind(inp.(objective := None), env);
  }

  /** Lines 85-161: the resolution cascade, reassigning `objective`, `link`,
      `link_param`, `is_classification` and `classes` in the order the source does. */
  method ResolveProblemKind(inp: Inputs, env: Collaborators) returns (r: Result<Resolution, Error>)
    ensures r == ResolveKind(inp, env)
  {
    var isDifferentialPrivacy := false;
    var link: Option<string> := None;
    var linkParam: Option<real> := None;
    var isClassification: Option<bool> := None;
    var objective := inp.objective;
    if objective.Some? {
      if IsBlank(objective.value) {
        objective := None;
      } else {
        var choice := env.determineLink(isDifferentialPrivacy, objective.value);
        if choice.None? {
          return Failure(LinkLookupFailed(objective.value));
        }
        link, linkParam := Some(choice.value.link), Some(choice.value.param);
        var outputType := env.outputType(choice.value.link);
        if outputType == ClassificationOutput {
          isClassification := Some(true);
        } else if outputType == RegressionOutput {
          isClassification := Some(false);
        } else {
          return Failure(UnknownObjective(objective.value));
        }
      }
    }

    var classes: Option<seq<Label>> := None;
    if inp.initScore.ClassifierModel? {
      classes := Some(inp.initScore.classes);
      if isClassification == Some(false) {
        return Failure(RegressionObjectiveClassifierModel);
      }
      isClassification := Some(true);
      if link.None? {
        var choice := env.determineLink(isDifferentialPrivacy, "log_loss");
        if choice.None? {
          return Failure(LinkLookupFailed("log_loss"));
        }
        link := Some(choice.value.link);
      }
    } else if inp.initScore.RegressorModel? {
      if isClassification == Some(true) {
        return Failure(ClassificationObjectiveRegressorModel);
      }
      isClassification := Some(false);
      if link.None? {
        var choice := env.determineLink(isDifferentialPrivacy, "rmse");
        if choice.None? {
          return Failure(LinkLookupFailed("rmse"));
        }
        link := Some(choice.value.link);
      }
    }

    var initScore: Option<ScoreShape> := None;
    if !inp.initScore.NoInitScore? {
      initScore := Some(inp.initScore.cleaned);
      if initScore.value.ndim == 2 {
        if isClassification == Some(false) {
          return Failure(RegressionObjectiveMatrixScore);
        }
        isClassification := Some(true);
      }
    }

    if isClassification.None? {
      match inp.targetType {
        case Continuous => isClassification := Some(false);
        case Binary => isClassification := Some(true);
        case Multiclass =>
          if initScore.Some? {
            isClassification := Some(false);
          } else {
            isClassification := Some(true);
          }
        case OtherTargetType => return Failure(UnrecognizedTargetType);
      }
    }
    return Success(Resolution(objective, link, linkParam, isClassification, classes));
  }

  /** `measure_interactions`: the checks of y, the resolution cascade, then the encoding,
      validation and configuration steps in the order of the source. */
  method MeasureInteractions(inp: Inputs, env: Collaborators) returns (r: Result<seq<(Term, real)>, Error>)
    ensures r == Measure(inp, env)
  {
    if inp.yNdim != 1 {
      return Failure(TargetNotOneDimensional);
    }
    if |inp.y| == 0 {
      return Failure(EmptyTarget);
    }

    var kind :- ResolveProblemKind(inp, env);
    var isDifferentialPrivacy := false;
    var objective, isClassification, classes := kind.objective, kind.isClassification, kind.classes;
    var initScore: Option<ScoreShape> := if inp.initScore.NoInitScore? then None else Some(inp.initScore.cleaned);

    var target: Target;
    var nClasses: int;
    if isClassification == Some(true) {
      if classes.None? {
        var (sorted, indices) := EncodeSorted(inp.y);
        target := ClassIndices(sorted, indices);
      } else {
        var encoded := EncodeWithCatalog(classes.value, inp.y);
        if encoded.Failure? {
          return Failure(UnknownLabel(encoded.error));
        }
        target := ClassIndices(classes.value, encoded.value);
      }
      nClasses := |target.classes|;
      if objective.None? {
        objective := Some("log_loss");
      }
    } else {
      target := RegressionValues(inp.y);
      nClasses := -1;
      if objective.None? {
        objective := Some("rmse");
      }
    }

    assert EncodeTarget(isClassification == Some(true), classes, inp.y) == Success(target);
    assert nClasses == ClassCount(target);
    if initScore.Some? {
      var s := initScore.value;
      if nClasses == 2 || nClasses == -1 {
        if s.ndim != 1 {
          return Failure(InitScoreShapeMismatch);
        }
      } else if 3 <= nClasses {
        if s.ndim != 2 || s.width != nClasses {
          return Failure(InitScoreShapeMismatch);
        }
      } else {
        if s.ndim == 2 && 2 <= s.width {
          return Failure(InitScoreShapeMismatch);
        }
        initScore := None;
      }
    }

    assert ValidateInitScore(nClasses, inp.initScore) == Success(initScore);
    var weights := inp.sampleWeight;
    if weights.Some? {
      if weights.value.ndim != 1 {
        return Failure(WeightsNotOneDimensional);
      }
      if |inp.y| != weights.value.length {
        return Failure(WeightLengthMismatch(|inp.y|, weights.value.length));
      }
    }
    assert CheckSampleWeight(inp.sampleWeight, |inp.y|) == Success(weights);

    var nFeatures := env.constructBins(BinRequest(target, weights, [inp.maxInteractionBins], "quantile", 1, 0));
    var dataset := Dataset(nClasses, 2, nFeatures, target, weights);

    var nOutputInteractions: int;
    var candidates: seq<Term>;
    match inp.interactions {
      case TopK(k) =>
        nOutputInteractions := k;
        candidates := Combinations2(nFeatures);
      case AllPairs =>
        nOutputInteractions := 0;
        candidates := Combinations2(nFeatures);
      case Explicit(terms) =>
        nOutputInteractions := 0;
        candidates := terms;
    }

    assert EnumerateCandidates(inp.interactions, nFeatures) == (candidates, nOutputInteractions);
    var request := RankRequest(
      dataset, initScore, candidates, {}, MaxCardinality, inp.minSamplesLeaf,
      isDifferentialPrivacy, objective.value, nOutputInteractions);
    assert Prepare(inp, env) == Success(request);
    var ranked := env.rankInteractions(request);
    return Success(ReverseEach(ranked));
  }
}
