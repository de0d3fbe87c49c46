# Focused inference: landmark removal, incremental SLAM and evaluation metrics

This project models, in Dafny, the core of a Python research code base that
keeps a landmark-based SLAM (simultaneous localisation and mapping) problem
small by deciding which landmarks to remove. The model covers:

- the `Landmark` record (`Landmarks.Landmark`): a mean, a covariance, its
  observations and its position history, with setters that refuse values of
  the wrong shape;
- the `Agent` (`Agents.Agent`): a pose and a 3x3 position covariance;
- the `Map` (`Maps.Map`): an agent and a dictionary of landmarks;
- the scoring utilities (`Scoring`): degree, uncertainty (trace), the greedy
  k-cover, and the per-landmark score dictionaries;
- the `LandmarkRemoval` engine (`Removal.LandmarkRemoval`) and its five
  strategies, which rebuild an identifier-keyed table of landmarks;
- the incremental `SLAM` driver (`Slam.Slam`): it builds a chain of pose
  factors, dispatches measurements and reads back the marginal covariance of
  the newest pose, plus the information-gain minimisation;
- the evaluation metrics ATE, ARE and UD (`Evals`).

Modelling choices:

- A NumPy array is an `Arrays.Array`: a shape and its row-major data.
- A dynamically typed argument is a `Values.Value`: an array, a pose, or
  anything else.
- Every pose the code builds has the identity rotation `Rot3()`. A pose is
  therefore its translation, and composing two poses adds their
  translations (`Geometry.Compose`).
- An insertion-ordered dictionary keyed by landmark identifier is a
  `seq<Landmark>` whose identifiers are distinct (module `Tables`). The
  comprehension `{lm.identifier: lm for lm in xs}` is `Tables.TableOf`: each
  identifier keeps the position of its first occurrence and the value of
  its last one. `Maps.Map`, which never depends on order, uses a Dafny
  `map`.
- Python's `sorted` is `StableSort.SortBy`, a stable insertion sort on a
  real-valued key. `reverse=True` is the stable sort by the negated key,
  which is what Python's stable descending sort produces.
- The code draws random numbers where a real system would observe
  something. Each draw is a parameter of the model:
  - a visibility relation `sees(id, pose)` for "pose sees landmark id";
  - a score function for mutual information and reprojection error;
  - an information-gain function.

  Every property is proved for every choice of these parameters.
- GTSAM's factor graph is a list of `Prior`/`Between` factor records, and
  its `Values` is a map from pose index to pose. `Marginals` is a `Solver`
  parameter: whether the graph can be factorised, and the marginal
  covariance of a pose, if there is one.

The k-cover loop of the code never ends when no landmark covers an
uncovered pose. The model's reference function `Scoring.Greedy` then
answers `Stuck`. The loop method `Scoring.KCoverAlgorithm` stops and
returns exactly that answer.

In the SLAM step, a measurement of a known landmark always raises:
- A three-element mean reaches `update_position` wrapped in a `Pose3`. The
  mean setter refuses it, because it is not a NumPy array.
- Any other mean cannot be reshaped to (3, 1).

Either way the exception comes after the new pose, its factor and its
initial value were appended, and before the step is counted. The model
states exactly this. A ghost counter `aborted` keeps the account
`|poses| == stepCount + 1 + aborted`.

## Model

| member | source | states |
|---|---|---|
| Geometry.Compose | source/slam/slam.py:70-71 | composing with an identity-rotation pose adds the translations componentwise |
| Geometry.ComposeIdentity | source/slam/slam.py:70-71 | composing with the zero translation leaves a pose unchanged |
| Arrays.Trace | source/info_theoretic/utils.py:45 | every rank-two array has a trace; the model treats every other covariance as having none (see Left out) |
| Arrays.TraceOfMatrix3 | source/info_theoretic/utils.py:45 | the trace of a 3x3 matrix is the sum of its three diagonal entries |
| Arrays.Identity3 | source/agents/agent.py:13 | `np.eye(3)` is a 3x3 matrix with ones exactly on the diagonal |
| Arrays.TopLeft3 | source/slam/slam.py:98 | the `[:3, :3]` slice exists exactly for rank-two arrays of at least 3x3, is 3x3, and agrees entrywise with the original |
| Landmarks.Landmark.constructor | source/landmarks/landmark.py:25-29 | stores the identifier, mean and covariance; no observations; the history holds just the initial pair |
| Landmarks.Landmark.SetMean | source/landmarks/landmark.py:41-47 | a 3-element array is stored; anything else is refused with the mean unchanged; the single-entry history survives |
| Landmarks.Landmark.SetCovariance | source/landmarks/landmark.py:54-60 | a 3x3 array is stored; anything else is refused with the covariance unchanged; the single-entry history survives |
| Landmarks.Landmark.UpdatePosition | source/landmarks/landmark.py:62-72 | a bad mean changes nothing; a good mean is stored even when the covariance is then refused; both good means both stored; the single-entry history survives |
| Landmarks.Landmark.AddObservation | source/landmarks/landmark.py:83-90 | appends the observation at the end and changes nothing else; the single-entry history survives |
| Landmarks.Landmark.GetPositionHistory | source/landmarks/landmark.py:101-109 | the history always has exactly one entry, since no operation appends to it |
| Agents.Agent.constructor | source/agents/agent.py:11-13 | stores the pose; the covariance is the 3x3 identity |
| Agents.Agent.SetPosition | source/agents/agent.py:19-26 | a pose is stored; a 3-vector becomes the pose with that translation; anything else is refused with the position unchanged |
| Agents.Agent.SetCovariance | source/agents/agent.py:32-38 | a 3x3 array is stored; anything else is refused; the covariance stays 3x3 |
| Maps.Map.constructor | source/maps/map.py:20-21 | the map holds the given agent and no landmarks |
| Maps.Map.AddLandmark | source/maps/map.py:23-33 | a landmark is stored under the key, replacing any previous one; a non-landmark is refused and nothing changes |
| Maps.Map.RemoveLandmark | source/maps/map.py:35-43 | the key is gone afterwards; an absent key leaves the map as it was |
| Maps.Map.UpdateLandmark | source/maps/map.py:45-64 | a present key updates that landmark's mean and covariance in place, keeping the key set and the landmark's observations and history; an absent key gains a fresh landmark with that id, mean and covariance, and the other entries stay |
| Maps.RemoveTwice | source/maps/map.py:35-43 | removing a key twice gives the same map as removing it once |
| Tables.IndexOfId | source/algorithms/landmark_removal.py:30 | the first position holding an identifier, or none exactly when the identifier is absent |
| Tables.Lookup | source/slam/slam.py:84-85 | the entry found for a present identifier carries that identifier |
| Tables.Put | source/algorithms/landmark_removal.py:30 | storing a key adds its identifier, keeps other entries in place, and keeps identifiers distinct |
| Tables.TableOf | source/algorithms/landmark_removal.py:30 | the dict comprehension gives distinct identifiers, exactly the input's identifiers, and only input landmarks |
| Tables.TableOfLastWins | source/algorithms/landmark_removal.py:30 | the last landmark with a given identifier is the one kept |
| Tables.TableOfFirstOccurrenceOrder | source/algorithms/landmark_removal.py:30 | entries are ordered by the first occurrence of their identifiers |
| Tables.TableOfDistinct | source/algorithms/landmark_removal.py:30 | a list with distinct identifiers is rebuilt as itself |
| Tables.TableOfSize | source/algorithms/landmark_removal.py:30 | the table has one entry per distinct identifier |
| Tables.Delete | source/algorithms/landmark_removal.py:96 | `del` removes exactly that identifier and, when it was present, exactly one entry |
| Tables.Without | source/algorithms/landmark_removal.py:116-117 | removes exactly the given identifiers and keeps only original entries |
| Tables.WithoutWithout | source/algorithms/landmark_removal.py:116-117 | removing two identifier sets in turn equals removing their union |
| Tables.DeleteAt | source/algorithms/landmark_removal.py:96 | in a table, deleting an entry's identifier cuts out exactly that entry |
| Tables.PermutationKeepsDistinctIds | source/algorithms/landmark_removal.py:62-63 | a reordering of a table is a table |
| StableSort.SortBy | source/algorithms/landmark_removal.py:62 | `sorted` returns a permutation of its input in non-decreasing key order |
| StableSort.InsertSorted | source/algorithms/landmark_removal.py:62 | inserting into a sorted list keeps it sorted |
| StableSort.SortByStable | source/algorithms/landmark_removal.py:62 | the elements with any one key value keep their input order |
| StableSort.SortByKeepsTies | source/algorithms/landmark_removal.py:62 | two equal-key elements in the output appear in the same relative order in the input |
| StableSort.SortByCongruent | source/algorithms/landmark_removal.py:62 | two keys that agree on the input give the same sorted list |
| Scoring.ComputeDegree | source/info_theoretic/utils.py:9-30 | the dictionary has exactly the landmarks' identifiers, and each degree counts, over the poses, the occurrences of that identifier that the pose sees |
| Scoring.SeenFromBound | source/info_theoretic/utils.py:23-28 | a degree never exceeds the number of poses |
| Scoring.DegreeOfTable | source/info_theoretic/utils.py:23-28 | over a table, a degree is the number of poses that see the landmark |
| Scoring.ComputeUncertainty | source/info_theoretic/utils.py:33-47 | raises exactly when some covariance has no trace in the model (is not a rank-two array), and then at the first such landmark in list order; otherwise keys are the identifiers and each holds the trace of its last landmark |
| Scoring.Covered | source/info_theoretic/utils.py:71-72 | the poses a landmark covers are among the uncovered ones |
| Scoring.Best | source/info_theoretic/utils.py:66-75 | the inner scan finds the largest cover; no winner exactly when that cover is empty |
| Scoring.BestIsFirst | source/info_theoretic/utils.py:73 | with the strict comparison, the winner is the first landmark of largest cover |
| Scoring.GreedyAtMostK | source/info_theoretic/utils.py:65 | the cover never holds more than `k` landmarks |
| Scoring.GreedySelectsFromInput | source/info_theoretic/utils.py:77-78 | the run extends the selection so far, and the cover holds distinct landmarks of the input |
| Scoring.GreedyCovers | source/info_theoretic/utils.py:62-83 | a finished run that chose fewer than `k` landmarks leaves every pose seen by a chosen landmark |
| Scoring.GreedyStuck | source/info_theoretic/utils.py:65-77 | when the loop gets stuck, fewer than `k` landmarks are chosen and some pose is seen by no landmark at all |
| Scoring.KCoverAlgorithm | source/info_theoretic/utils.py:50-83 | the loop computes the greedy reference answer |
| Scoring.KCoverCornerCases | source/info_theoretic/utils.py:65 | `k <= 0` or no poses gives an empty cover; no landmarks with poses to cover gets stuck |
| Scoring.ScoresUpTo | source/info_theoretic/utils.py:99-100 | a prefix's score dictionary has exactly that prefix's identifiers |
| Scoring.ScoresUpToValues | source/info_theoretic/utils.py:99-100 | each identifier maps to the score of its last landmark in the prefix |
| Scoring.ScoresById | source/info_theoretic/utils.py:99-100 | the score dictionary has exactly the identifiers, each with the score of its last landmark |
| Removal.Reversed | source/algorithms/landmark_removal.py:85 | `list(reversed(s))` has the same length and mirrors positions |
| Removal.FirstMin | source/algorithms/landmark_removal.py:95 | `min(infos, key=infos.get)` picks a least score, and the first one |
| Removal.NextToDrain | source/algorithms/landmark_removal.py:94-95 | the next deleted landmark has the least current score, and no earlier entry ties it |
| Removal.DrainOrderPermutation | source/algorithms/landmark_removal.py:93-96 | the drain deletes every landmark of the table exactly once |
| Removal.DrainOrderHead | source/algorithms/landmark_removal.py:93-96 | the first landmark drained has the least score |
| Removal.SortedTable | source/algorithms/landmark_removal.py:62-63 | rebuilding the dictionary from a sorted table keeps the sorted order |
| Removal.TableTraces | source/algorithms/landmark_removal.py:70-72 | over a table, the uncertainty dictionary holds each landmark's own trace |
| Removal.TracesDescend | source/algorithms/landmark_removal.py:71-73 | the descending sort lists the traces in non-increasing order |
| Removal.RankedTable | source/algorithms/landmark_removal.py:61-63 | sorting by a dictionary lookup equals sorting by the quantity it stores, and gives a table |
| Removal.DegreesAgree | source/algorithms/landmark_removal.py:61-62 | over a table, the degree lookup is the number of poses that see the landmark |
| Removal.DegreeOrder | source/algorithms/landmark_removal.py:62 | the degree ranking is a permutation in non-decreasing degree |
| Removal.ScoresAgree | source/algorithms/landmark_removal.py:103-105 | over a table, the score lookup agrees with the score function |
| Removal.ScoreOrder | source/algorithms/landmark_removal.py:104-105 | the score ranking is a permutation in non-decreasing score |
| Removal.KCoverTable | source/algorithms/landmark_removal.py:84-86 | a finished cover, reversed, is a table of at most `k` of the landmarks |
| Removal.DrainRound | source/algorithms/landmark_removal.py:93-96 | each loop round deletes the next landmark in the drain order |
| Removal.DeleteEachSucceeds | source/algorithms/landmark_removal.py:116-117 | the deletions all succeed exactly when the identifiers are distinct and present, and then remove exactly them |
| Removal.LandmarkRemoval.constructor | source/algorithms/landmark_removal.py:22-31 | the table is the comprehension of the landmarks, with one entry per identifier |
| Removal.LandmarkRemoval.SetLandmarks | source/algorithms/landmark_removal.py:38-43 | a list rebuilds the table; anything else is refused and the table stays |
| Removal.LandmarkRemoval.SetPoses | source/algorithms/landmark_removal.py:50-55 | a list replaces the poses; anything else is refused and the poses stay |
| Removal.LandmarkRemoval.LeastDegreeRemoval | source/algorithms/landmark_removal.py:57-64 | the table becomes a stable permutation of itself in non-decreasing degree |
| Removal.LandmarkRemoval.MaxUncertaintyRemoval | source/algorithms/landmark_removal.py:66-75 | fails, leaving the table, exactly when a covariance is not a rank-two array; otherwise a permutation in non-increasing trace |
| Removal.LandmarkRemoval.KCoverRemoval | source/algorithms/landmark_removal.py:77-87 | with `k` defaulting to 1, the table becomes the greedy cover in reverse selection order: at most `k` of its landmarks; stuck leaves it |
| Removal.LandmarkRemoval.LeastInformativeRemoval | source/algorithms/landmark_removal.py:89-97 | the table ends empty, and the deletions follow the drain order |
| Removal.LandmarkRemoval.LeastReprojectionErrorRemoval | source/algorithms/landmark_removal.py:99-107 | the table becomes a stable permutation of itself in non-decreasing score |
| Removal.LandmarkRemoval.RemoveLandmarks | source/algorithms/landmark_removal.py:109-118 | deletes in order; a missing identifier raises after the earlier deletions, naming that identifier |
| Removal.AlgorithmNames | source/algorithms/landmark_removal.py:120-129 | five distinct strategy names |
| Slam.ChainStart | source/slam/slam.py:40-44 | the initial graph is a prior on pose 0 at the initial pose |
| Slam.ChainExtend | source/slam/slam.py:76-77 | appending the odometry factor keeps the graph a chain: factor `i` links pose `i-1` to pose `i` by the composed delta |
| Slam.EstimatesExtend | source/slam/slam.py:78 | the new pose index is not yet in the initial estimate, and inserting it keeps the estimate equal to the pose list |
| Slam.EstimatesStart | source/slam/slam.py:44 | the initial estimate holds exactly pose 0 |
| Slam.FirstKnown | source/slam/slam.py:81-84 | finds the first measurement of a known landmark, or none exactly when no id is known |
| Slam.ApplyMeasurement | source/slam/slam.py:84-86 | updating a known landmark always raises and leaves it unchanged: a 3-element mean reaches the mean setter as a `Pose3`, which refuses it, and any other mean fails the reshape before the setter is reached |
| Slam.PositionBlock | source/slam/slam.py:96-99 | the 3x3 block exists exactly when the marginal exists and is at least 3x3 |
| Slam.TopHalf | source/slam/slam.py:108-110 | keeps `int(len * 0.5)` landmarks |
| Slam.KeepTopHalf | source/slam/slam.py:107-110 | keeps half, drawn from the table without repeats, and every kept landmark has at least the gain of every dropped one |
| Slam.Slam.constructor | source/slam/slam.py:21-44 | for an initial translation of shape (3,) or (3, 1): one pose, step 0, the table of the landmarks, a prior factor and an estimate on pose 0, the agent at the initial pose with identity covariance |
| Slam.Slam.Dispatch | source/slam/slam.py:81-86 | no landmark changes, since each known-id update is refused; passes exactly when no id is known, and otherwise fails on the first known one |
| Slam.Slam.AppendPose | source/slam/slam.py:67-78 | appends the composed pose, its factor and its estimate, and moves the agent there |
| Slam.Slam.PerformSlamStep | source/slam/slam.py:56-101 | bad control changes nothing; otherwise the pose, factor and estimate are appended; a known id fails the step uncounted; a counted step fails if `Marginals` fails, and otherwise updates the covariance where the block exists |
| Slam.Slam.MinimizeLandmarks | source/slam/slam.py:103-110 | the table becomes the top half by gain, in decreasing gain order |
| Evals.SumSquares | source/info_theoretic/evals.py:24-25 | the sum of squared differences is non-negative |
| Evals.SumSquaresSelf | source/info_theoretic/evals.py:24-25 | a trajectory against itself has zero squared error |
| Evals.SumSquaresSymmetric | source/info_theoretic/evals.py:24-25 | the squared error does not depend on argument order |
| Evals.Ate | source/info_theoretic/evals.py:10-26 | raises exactly on a shape mismatch or a missing axis 1; nan exactly with no errors to average; otherwise a non-negative root mean square of the squared errors |
| Evals.AteSelf | source/info_theoretic/evals.py:24-25 | a trajectory has zero ATE against itself |
| Evals.AteSymmetric | source/info_theoretic/evals.py:21-26 | ATE is symmetric in its arguments, errors included |
| Evals.Clip | source/info_theoretic/evals.py:46 | `np.clip` lands in [-1, 1], keeps values inside, and saturates values outside |
| Evals.RowAngle | source/info_theoretic/evals.py:47 | an angular error in degrees lies in [0, 180] |
| Evals.Angles | source/info_theoretic/evals.py:43-47 | one angle per row, all in [0, 180] |
| Evals.SumBounds | source/info_theoretic/evals.py:48 | bounds on every term bound the sum |
| Evals.MeanBounds | source/info_theoretic/evals.py:48 | bounds on every term bound the mean |
| Evals.Are | source/info_theoretic/evals.py:29-49 | raises exactly on a shape mismatch or a size not divisible by 3; nan exactly for empty input; otherwise a mean angle in [0, 180] |
| Evals.AreSelf | source/info_theoretic/evals.py:43-48 | rotation vectors of squared norm at least 1 have zero ARE against themselves, since the clip brings each dot product to 1 |
| Evals.Det3Expansions | source/info_theoretic/evals.py:66-67 | the row and column cofactor expansions of the 3x3 determinant agree |
| Evals.Det3Identity | source/info_theoretic/evals.py:66-67 | the identity has determinant 1 |
| Evals.Ud | source/info_theoretic/evals.py:52-69 | raises exactly when either matrix is not 3x3; otherwise the result is the estimated determinant minus the ground-truth one |
| Evals.UdSelf | source/info_theoretic/evals.py:66-68 | UD of a matrix against itself is zero |
| Evals.UdAntisymmetric | source/info_theoretic/evals.py:63-68 | swapping the arguments negates UD and keeps its error cases |

## Left out

- Randomness: `np.random` draws in `compute_degree`, `k_cover_algorithm`, `compute_mutual_information` and `compute_reprojection_error` are replaced by the visibility relation and the score functions. The properties hold for every choice of these, so they hold whatever the draws were.
- Scoring.ComputeDegree: `np.random.randint(1, len(landmarks))` raises when there are fewer than two landmarks and at least one pose. The model does not reproduce this draw-specific failure. It also draws a subset of landmark-list positions, which the visibility relation stands for.
- Scoring.KCoverAlgorithm: the source loops forever when no landmark covers an uncovered pose. The model returns `Stuck` instead.
- Scoring.KCoverAlgorithm: the source removes `best_cover` random poses rather than the poses the winner sees. The model removes the poses the winner sees.
- Removal.LandmarkRemoval.LeastInformativeRemoval: its `removed` out-parameter is ghost and records the deletion order for the proof. The code returns only the (empty) list.
- Slam.Slam.PerformSlamStep: the counter `aborted` is ghost. It stands for the steps that raised after appending a pose; the code keeps no count of them.
- GTSAM: `Pose3`, `Rot3`, `NonlinearFactorGraph`, `Values`, the noise models, `Marginals` and `marginalCovariance` are foreign code. Poses are translations with the identity rotation. The graph and the estimate are records. The marginal computation is the `Solver` parameter.
- Slam.Slam.constructor: requires an initial translation given as a NumPy array of shape (3,) or (3, 1), the two shapes `Pose3(Rot3(), t)` converts. The `TypeError` `Pose3` raises for any other shape is not modelled. Neither is a Python list or other sequence, which the GTSAM bindings would convert.
- Slam.Slam.PerformSlamStep: `control` is always an array. A control that is not a NumPy array fails with `AttributeError` at `control_input.shape`, and that path is not modelled.
- Measurements: each is a record with an id, a mean and a covariance. The `KeyError` for a dictionary without those keys is not modelled.
- Slam.Slam.MinimizeLandmarks: `compute_information_gain` is not defined anywhere in the repository, so the gain is a parameter. `source/slam/slam.py:14` imports it from `source/info_theoretic/utils.py`, so that import raises `ImportError` and the `SLAM` class cannot be loaded at all; the model describes the class as written, as if the import succeeded. `perform_slam_step` never calls the minimisation, because its trigger is commented out.
- `Map.update_agent_position` calls `Agent.move_agent`, which does not exist, so it always raises `AttributeError`. It is not modelled.
- Plain getters (`Agent.position`, `Agent.position_covariance`, the `landmarks` and `poses` properties, `Landmark.identifier`, `position_mean`, `position_covariance`, `Landmark.get_position`, `Landmark.get_observations`, and `Map.get_landmark`, which is `landmarks.get(id, None)`) are field and map reads in the model, not separate members.
- `Landmark.__repr__`, the `print` logging in `perform_slam_step`, `source/maps/visualization.py`, `source/main.py`, `source/run.py` and `source/utils/graphs.py` are output and driver code. They are not part of this model.
- Arrays.Trace / Scoring.ComputeUncertainty / Removal.LandmarkRemoval.MaxUncertaintyRemoval: a covariance that is not a rank-two array is treated as raising. `np.trace` on an array of rank three or more returns an array of traces taken over the first two axes, and on a nested list it converts the list first. `Landmark`'s constructor stores its covariance unchecked, so such values can reach `compute_uncertainty`. `Removal.LandmarkRemoval.MaxUncertaintyRemoval` therefore reports a failure where the source would go on, sorting by array-valued keys or raising while it compares them.
- Scoring.SetOf: `set(poses)` is modelled as the set of pose values, so equal poses merge. GTSAM `Pose3` objects hash by identity, so in the source two equal but distinct pose objects stay separate.
- Floating point: numbers are mathematical reals. NaN from the mean of an empty array is the `NotANumber` error value. Rounding in `np.linalg.det` and `np.sqrt` is not modelled.
- Evals.Ate: `np.sqrt` is a parameter assumed to be a non-negative square root on non-negative reals. The contract relates the square of the result to the mean squared error. It does not show that a zero ATE forces equal trajectories.
- Evals.Are: `np.arccos` and `np.pi` are parameters with only their range assumed (arccos maps [-1, 1] into [0, pi], and arccos(1) = 0). The contract gives the range of the result but no closed form.
- Evals.Ud: `np.linalg.det` is the 3x3 cofactor expansion, exact over the reals.
