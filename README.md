# Deblender-versus-truth bookkeeping of `meas_deblender`'s `sim.py`

This project models the table bookkeeping that `python/lsst/meas/deblender/sim.py`
uses to score the deblender's detections ("peaks") against a simulated truth
catalogue, and proves properties of that model. It covers four parts:

- **Peak tables** (`buildFootprintPeakTable`, `buildPeakTable`). Parent detections and their ordered peaks are flattened into one row per peak: parent id, peak index, integer position, `blended` flag and footprint. An all-NaN `flux_<f>` column is added per filter. The table is a class (`PeakTables.PeakTable`) whose flux and sed columns later operations rewrite in place.
- **Truth matching** (`matchToRef`, lines 193-236). It has these steps:
  - find the nearest truth source of every peak;
  - apply the strict separation cut;
  - set the duplicate flags, computed from the counts of matched truth indices;
  - blank the unmatched rows in a zeroing loop over the filters, which, as written, also replaces the sed of every row;
  - list the truth sources no matched peak points at;
  - compute their peak-to-noise ratios in a double loop.
  
  Every exception the code raises on the way is a `Failure` of a `Result`.
- **Flux fill-in** (`calculateFluxPortion`, `calculateNmfFlux`). A row loop with an inner filter loop writes the cells of the rows whose parent was deblended. One method is proved against the closed form `FluxFill.FilledFlux`.
- **SED normalisation** (`calculateSedsFromFlux`). Each row's flux vector is divided by its sum, with numpy's NaN and division-by-zero behaviour. The table's sed column is written only when `inPlace` is set.

`MatchScenarios` and `FluxScenarios` prove the outcome of the whole pipeline for small catalogues. They cover:

- a close match;
- a distant source, blanked and undetected;
- two peaks sharing one truth source;
- a missing noise estimate;
- an empty intensity patch that fails before a repeated filter name does;
- a footprint without peaks, with and without filters;
- a two-peak blend whose SEDs are computed.

Modelling choices:

- **NaN flux cells** are `None`.
- **Division** results are `Numerics.Float`: a finite value, plus or minus infinity, or NaN.
- **Reals are exact.** Floating-point rounding is not modelled.
- **Distances are kept squared**, because there is no square root on `real`. `Matching.SeparationTest` proves that the squared cut `d² < maxSeparation²` is the strict linear cut `d < maxSeparation`.
- **Nearest neighbour and tie-breaks.** The k-d tree query is specified by its argmin property, `Matching.IsNearest`. Among equidistant truth sources the model picks the lowest index (`Matching.FirstAmongNearest`). That is a refinement: the source leaves the tie-break to the k-d tree. `Matching.NearestDistanceUnique` shows that every argmin has the same distance.
- **Undetected sources are listed in ascending index order.** The source iterates a Python set, whose order is not specified.
- **Empty inputs.** On an empty truth table, an empty peak table or an empty filter list the code raises: the k-d tree cannot be built, `peakCoords` has the wrong shape, and `filters[0]` does not exist. The model follows the code: these are `EmptyTruthTable`, `EmptyPeakTable` and `NoFilters`.
- **Peak tables without rows.** Assigning the scalar NaN to a new `flux_<f>` column of a zero-row table raises in the table library. The peak-table builders therefore fail with `ScalarColumnOnEmptyTable` exactly when there are no peaks and at least one filter; with no filters the empty table is returned.
- **Other exceptions.** They arise only when some truth source is undetected, since the ratio loop runs once per undetected source. `np.max` of an empty intensity patch gives `EmptyIntensity`. A `None` `avgNoise`, or one shorter than the filter list, gives `MissingNoise`. A repeated filter name gives `DuplicateFilter`, because the ratio column then has the wrong length; this happens only after every ratio was computed, so a failing ratio takes precedence.
- **Inputs the source does not check.** The source faults on three conditions that the model states as preconditions instead: a truth table missing a `flux_<f>` or `intensity_<f>` column (`Matching.HasFilterColumns`), a deblended parent missing a value (`FluxFill.Fillable`), and a peak table missing the `flux_<f>` column of a requested filter in `Seds.CalculateSedsFromFlux`.

## Model

| member | source | states |
|---|---|---|
| PeakTables.PeakTable.constructor | python/lsst/meas/deblender/sim.py:146-147 | a new table holds exactly the given rows, no flux columns and no sed column |
| PeakTables.AddEmptyFluxColumns | python/lsst/meas/deblender/sim.py:148-150 | fails iff the table has no rows and there is at least one filter, leaving the table as it was; otherwise the table gains one all-NaN `flux_<f>` column per filter name, one cell per row; rows and sed are unchanged either way |
| PeakTables.BuildFootprintPeakTable | python/lsst/meas/deblender/sim.py:56-105 | fails with `ScalarColumnOnEmptyTable` iff the footprint has no peaks and there is at least one filter; otherwise the rows are those of the footprint's peaks in order, with parent `sid` (0 when absent), every flux cell is NaN and there is no sed |
| PeakTables.BuildPeakTable | python/lsst/meas/deblender/sim.py:107-152 | fails with `ScalarColumnOnEmptyTable` iff no source has a peak and there is at least one filter; otherwise the rows are the flattened peaks of all sources, parent then peak order, as `PeakRows`, and every flux cell starts as NaN |
| PeakTables.PeakRowsLength | python/lsst/meas/deblender/sim.py:131-145 | the table has exactly one row per peak of all sources |
| PeakTables.PeakRowsPrefix | python/lsst/meas/deblender/sim.py:131-145 | the rows of the first j sources are a prefix of the rows of all sources |
| PeakTables.PeakRowsAt | python/lsst/meas/deblender/sim.py:131-145 | row `Offset(i) + k` has parent id of source i, peak index k, that peak's position and the footprint's blended flag |
| PeakTables.OffsetsOrdered | python/lsst/meas/deblender/sim.py:131-145 | every row of an earlier source precedes every row of a later source |
| PeakTables.PeakRowOrigin | python/lsst/meas/deblender/sim.py:131-145 | every row is peak k of some source i, at position `Offset(i) + k` |
| PeakTables.PeakRowsConsistent | python/lsst/meas/deblender/sim.py:134-145 | every row's peak index lies in its footprint, its x and y are that peak's, and `blended` holds iff the footprint has two or more peaks |
| PeakTables.SingleSourceRows | python/lsst/meas/deblender/sim.py:88-97 | the single-footprint table has the same rows as the full table built from that single source |
| Numerics.Divide | python/lsst/meas/deblender/sim.py:491 | numpy division: finite iff the divisor is non-zero, in which case quotient times divisor is the dividend; otherwise +inf, -inf or NaN by the sign of the dividend |
| Numerics.Max | python/lsst/meas/deblender/sim.py:232 | the maximum of a non-empty vector is one of its entries and bounds all of them |
| Numerics.SumScaled | python/lsst/meas/deblender/sim.py:490-491 | dividing every entry by a non-zero c divides the sum by c |
| Matching.Nearest | python/lsst/meas/deblender/sim.py:193-196 | the chosen truth index is at minimal squared distance from the peak and no lower index is as near |
| Matching.NearestDistanceUnique | python/lsst/meas/deblender/sim.py:196 | any argmin has the same distance as the chosen one, and the chosen index is never after it |
| Matching.SeparationTest | python/lsst/meas/deblender/sim.py:198 | the cut on the squared distance holds iff the linear distance is strictly below `maxSeparation`, so a peak at exactly `maxSeparation` is unmatched |
| Matching.DuplicateFlags | python/lsst/meas/deblender/sim.py:200-206 | one flag per peak, and only a matched peak is ever a duplicate |
| Matching.DuplicateIffShared | python/lsst/meas/deblender/sim.py:200-206 | the count-based duplicate flag of peak i holds iff i is matched and some other matched peak has the same truth index |
| Matching.Unhit | python/lsst/meas/deblender/sim.py:221-223 | the list holds exactly the indices below M not hit, strictly ascending |
| Matching.HitBelowStep | python/lsst/meas/deblender/sim.py:221-223 | raising the bound from m - 1 to m adds one hit index below the bound iff m - 1 is hit |
| Matching.UnhitCount | python/lsst/meas/deblender/sim.py:221-223 | the unhit indices and the hit indices below M together number M |
| Matching.UndetectedCount | python/lsst/meas/deblender/sim.py:221-227 | the number of undetected truth sources is M minus the number of distinct matched truth indices |
| Matching.FilterPassStep | python/lsst/meas/deblender/sim.py:211-218 | one pass of the zeroing loop for filter f extends the blanking property from the filters seen so far to those plus f |
| Matching.BlankUnmatched | python/lsst/meas/deblender/sim.py:208-218 | after the loop over the filters every row has the zero sed. An unmatched row also has zero flux and the zero patch in every filter, zero size and redshift, and the peak's x and y. A matched row keeps all other truth values. Flags and distances are unchanged |
| Matching.PeakNoiseTable | python/lsst/meas/deblender/sim.py:227-236 | succeeds iff every ratio is defined and, when some source is undetected, the filter names are distinct. On success there is one row per undetected source, holding its truth row and, per filter k, max intensity over `avgNoise[k]`. Otherwise the error is the first failing ratio in loop order, or the duplicate filter |
| Matching.GatheredFacts | python/lsst/meas/deblender/sim.py:196-206 | before blanking, each peak's row is its nearest truth row (lowest index among ties) with its squared distance, matched iff within the separation, and a duplicate iff another matched peak has the same truth index |
| Matching.BuildMatchTable | python/lsst/meas/deblender/sim.py:193-218 | one row per peak from its nearest truth row. `matched` iff within the separation; `duplicate` iff another matched peak shares the truth index. Blanking uses the zero patch and zero sed shaped like row 0's |
| Matching.MatchToRef | python/lsst/meas/deblender/sim.py:193-236 | each exception, characterised exactly: empty truth table, empty peak table or no filters first; otherwise the first failing ratio in loop order; otherwise, with every ratio defined and some source undetected, a repeated filter name. On success everything `BuildMatchTable` states, plus the undetected sources in ascending order, their count, their rows and their peak-to-noise ratios |
| FluxFill.LastIndex | python/lsst/meas/deblender/sim.py:460-462 | the position of the last occurrence of a filter name, the write that stays when a name repeats |
| FluxFill.FillFlux | python/lsst/meas/deblender/sim.py:456-462 | the rows, the sed and the column set are kept, and the flux columns become `FilledFlux` of the old ones |
| FluxFill.CalculateFluxPortion | python/lsst/meas/deblender/sim.py:442-462 | the flux columns become `FilledFlux` with the apportioned flux `peakFlux[fidx][peakIdx]`; rows and sed unchanged |
| FluxFill.CalculateNmfFlux | python/lsst/meas/deblender/sim.py:376-395 | the flux columns become `FilledFlux` with the template sum of `(fidx, peakIdx)`; rows and sed unchanged |
| FluxFill.FilledFluxShape | python/lsst/meas/deblender/sim.py:456-462 | filling keeps every flux column and its length |
| FluxFill.FilledFluxKeepsOthers | python/lsst/meas/deblender/sim.py:456-457 | a row whose parent was not deblended, or a column whose filter is not the deblender's, keeps its cell |
| FluxFill.FilledFluxWrites | python/lsst/meas/deblender/sim.py:458-462 | with distinct filter names, the cell of filter `filters[fidx]` in a deblended parent's row is that parent's value for `fidx` and the row's peak index |
| Seds.FluxMatrix | python/lsst/meas/deblender/sim.py:487-489 | an n by `len(filters)` array whose column j, read back down the rows, is exactly the table column `flux_<filters[j]>` |
| Seds.SedSumsToOne | python/lsst/meas/deblender/sim.py:490-491 | a row without NaN and with a non-zero total has a finite SED summing to one |
| Seds.SedTimesNormalization | python/lsst/meas/deblender/sim.py:490-491 | each SED cell times the row's normalisation gives back that row's flux |
| Seds.SedNaNPropagates | python/lsst/meas/deblender/sim.py:490-491 | one NaN flux makes the normalisation and every SED cell of the row NaN |
| Seds.SedZeroTotal | python/lsst/meas/deblender/sim.py:491 | a row summing to zero gives +inf for positive cells, -inf for negative ones and NaN for zero cells |
| Seds.CalculateSedsFromFlux | python/lsst/meas/deblender/sim.py:464-494 | returns the SEDs and normalisations of the flux array; rows and flux unchanged; the sed column is the SEDs iff `inPlace`, otherwise untouched |
| MatchScenarios.SingleTruth | python/lsst/meas/deblender/sim.py:193-223 | with one truth source every peak points at it, and it is undetected iff the only peak lies outside the cut |
| MatchScenarios.CloseSourceMatches | python/lsst/meas/deblender/sim.py:193-236 | a peak one pixel from a flux-100 truth source with radius 3: matched, distance 1, not a duplicate, truth flux kept, no source undetected |
| MatchScenarios.DistantSourceInputs | python/lsst/meas/deblender/sim.py:88-105 | the single-peak table at (10, 10) and its distance of 200 squared pixels to the truth source at the origin, which is undetected |
| MatchScenarios.BlankedOneFilter | python/lsst/meas/deblender/sim.py:211-218 | a blanked unmatched row of a one-filter catalogue has zero flux, the zero patch, zero size and redshift and the peak's position |
| MatchScenarios.DistantSourceBlanked | python/lsst/meas/deblender/sim.py:208-218 | the distant source's row: unmatched, not a duplicate, flux 0, zero patch, position (10, 10) |
| MatchScenarios.DistantSourceUndetected | python/lsst/meas/deblender/sim.py:221-236 | the distant source is the one undetected source, with peak-to-noise ratio 6 / 2 = 3 |
| MatchScenarios.NearerOfTwo | python/lsst/meas/deblender/sim.py:196 | of two truth sources the strictly nearer one is the chosen nearest |
| MatchScenarios.SharedSourceFacts | python/lsst/meas/deblender/sim.py:196-223 | two peaks on top of the first of two truth sources both point at it, both are matched, and only the second truth source is undetected |
| MatchScenarios.SharedSourceDuplicates | python/lsst/meas/deblender/sim.py:196-206 | two peaks at (0, 0) with truth sources at (0, 0) and (0, 1): both match truth index 0 and both are duplicates |
| MatchScenarios.SharedSourceUndetected | python/lsst/meas/deblender/sim.py:221-236 | in the same catalogue truth source 2 is the one undetected source |
| MatchScenarios.PeakFreeFootprintFails | python/lsst/meas/deblender/sim.py:99-103 | a footprint without peaks and one filter makes the builder fail, with `ScalarColumnOnEmptyTable` |
| MatchScenarios.PeakFreeFootprintNoFilters | python/lsst/meas/deblender/sim.py:99-105 | a footprint without peaks and no filters gives a table with no rows |
| MatchScenarios.EmptyPatchBeforeDuplicateFilter | python/lsst/meas/deblender/sim.py:227-236 | an undetected source with an empty intensity patch and the filter list `i, i` fails with `EmptyIntensity`, not with the duplicate-filter error |
| MatchScenarios.MissingNoiseFails | python/lsst/meas/deblender/sim.py:232 | an undetected source with no noise estimate makes the matcher fail with the missing-noise error |
| FluxScenarios.BlendFillable | python/lsst/meas/deblender/sim.py:456-462 | every write of the fill-in for the two-peak blend finds its flux column and its apportioned value |
| FluxScenarios.BlendFilled | python/lsst/meas/deblender/sim.py:456-462 | the fill-in turns the empty g and r columns of the blend into (1, 2) and (3, 6) |
| FluxScenarios.BlendFluxMatrix | python/lsst/meas/deblender/sim.py:487-489 | the filled g and r columns read row by row |
| FluxScenarios.BlendSeds | python/lsst/meas/deblender/sim.py:490-491 | rows (1, 3) and (2, 6) have normalisations 4 and 8 and the same SED (0.25, 0.75) |
| FluxScenarios.TwoPeakBlendSeds | python/lsst/meas/deblender/sim.py:442-494 | a two-peak parent filled from its apportioned flux yields SEDs (0.25, 0.75) for both peaks and normalisations 4 and 8 |

## Left out

- `loadSimCatalog`: FITS catalogue I/O.
- `getNoise`: foreign image statistics. The noise estimates are an input of the matcher.
- The plots and displays of `matchToRef` from line 238 on, together with `displayImage`, `plotSedComparison` and `checkForDegeneracy`: matplotlib output.
- `deblendSimExposuresOld`: it calls a foreign deblender.
- `calculateIsolatedFlux`: it extracts pixels through foreign image utilities.
- `compareMeasToSim`: table stacking, logging and plots.
- The k-d tree and `poolSize`: library internals. The nearest-neighbour result is specified by its argmin property.
- The logging of the undetected-source count (line 224).
- The lazy `getFluxPortion()` call (lines 459-460): a deblended parent carries its apportioned flux already.
- `getTemplate`: a lookup into the parent's templates. Intensity patches and templates are flat vectors; `np.max`, `np.sum` and `np.zeros_like` do not depend on their shape.
- The broadcasting of a zero patch into rows whose intensity patches have a different shape.
- Floating-point rounding and signed zeros: arithmetic is on exact reals.
- When every truth source is matched, the source indexes the truth table with an array built from an empty list; the model takes the result to be an empty unmatched table.
- `Seds.CalculateSedsFromFlux`: a filter named twice reads its column twice; how the table library treats repeated column names is not modelled.
- `Matching.BuildMatchTable`: the `distance` column holds the squared distance rather than the linear one, because there is no square root on `real`; `Matching.SeparationTest` relates the two.
- `Matching.MatchToRef`: a missing `flux_<f>` or `intensity_<f>` column is a precondition (`HasFilterColumns`), not an error result.
- `FluxFill.CalculateFluxPortion`: a flux column or a deblender value that is missing is excluded by a precondition (`Fillable`), not modelled as the `KeyError` or `IndexError` the source raises.
- `FluxFill.CalculateNmfFlux`: missing columns and templates are excluded by `Fillable` in the same way.
