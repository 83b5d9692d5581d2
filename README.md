# VolViz ray-casting core in Dafny

VolViz renders scalar volumes (CT-style `.dat` files of 16-bit voxels) by
casting rays on the CPU. The repository holds two renderers:

- a newer C# one (`Data/`, `Logic/`): a transfer function kept as sorted
  nodes with 101-entry lookup tables, a viewport whose move, rotate and
  zoom state is turned into view-plane corners, a slab ray/box test, and a
  first-hit ray march over a 128 x 128 image;
- an older Qt/C++ one (`cpp-renderer/`): a voxel grid loaded from `.dat`
  files with nearest and trilinear sampling, gradients and a histogram; a
  transfer function kept as a flat vector of (position, r, g, b, alpha)
  samples and discretised into a table; and a widget whose `castRay` does
  first-hit, maximum intensity (M.I.P.), average intensity and
  back-to-front direct volume rendering (D.V.R.), with its own slab test.

Both rest on small value types: HSV conversion, rendering-mode names,
`Vector3d` and `Matrix4d`.

This project models that core, one Dafny module per source file:

| module | file | source |
|---|---|---|
| `Numeric` | numeric.dfy | the integer casts, rounding and `%` of C# and C++ |
| `Vectors` | vector3d.dfy | cpp-renderer/Vector3d.h |
| `Matrices` | matrix4d.dfy | cpp-renderer/Matrix4d.h |
| `ColorHsv` | hsv.dfy | ColorHSVConverter.cs |
| `RenderingModes` | rendering_mode.dfy | Configuration/RenderingMode.cs |
| `ViewPlanes` | view_plane.dfy | Data/ViewPlane.cs |
| `CsVolumes` | volume_cs.dfy | Data/Volume.cs |
| `CsTransferFunctions` | tf_cs.dfy | Data/TransferFunction.cs |
| `Viewports` | viewport.dfy | Data/Viewport.cs |
| `CsRenderers` | renderer_cs.dfy | Logic/VolumeRenderer.cs |
| `Grids`, `VolumeSampling`, `VolumeGradients`, `VolumeHistogram`, `DatFormat`, `CppVolumes` | grid.dfy, sampling.dfy, gradients.dfy, histogram.dfy, dat_format.dfy, volume.dfy | cpp-renderer/Volume.h |
| `CppTransferFunctions` | tf_cpp.dfy | cpp-renderer/transfer_function.h |
| `DvrWidgets` | dvr.dfy | cpp-renderer/glwidgetdvr.h |

Conventions of the model:

- Scalars (`float`, `double`) are `real`. Integer casts, .NET rounding
  (`Convert.ToInt32`, `Math.Round`, which round half to even) and the
  truncating `%` of both languages are written out in `Numeric`.
- Square root, cosine, sine, the rendering jitter `rand() / RAND_MAX`, the
  gradient attenuation `1 - 1/ln(e + m)` and the histogram's cube root are
  parameters of the members that use them. Where a proof needs one of
  their properties, it is a precondition, such as the square root being
  exact on squares or the attenuation mapping magnitudes m >= 0 into
  [0, 1]. `DvrWidgets.ProgramAttenuationInUnit` shows that the program's
  `1 - 1/ln(e + m)` meets that condition, for any `ln` that rises from e
  on with ln(e) = 1. For negative m it does not, and there the model
  promises nothing.
- Objects whose methods update fields in place are classes:
  - the C# `TransferFunction`, `Viewport`, `Volume` and `VolumeRenderer`;
  - the C++ `Volume`, `TransferFunction`, `GLWidgetDvr`, `Vector3d` and
    `Matrix4d`.

  Their methods are proved against pure specification functions, and the
  properties the program relies on are lemmas about those functions.
- Exceptions, `std::out_of_range` from `at()`, and reads past an array
  along paths the program takes on its own data are outcomes in the result
  types: `Result`, `Option`, `Probe` and `Pixel`.
- A C++ `assert` is a demand on the caller, so the member that models it
  carries it as a precondition:
  - `Vectors.Vector3d.Get`, `Vectors.Component`: the index is below 3;
  - `Vectors.Vector3d.DivAssign`, `Vectors.Vector3d.Divided`, `Vectors.DivElem`: every component of the divisor is non-zero;
  - `Vectors.Vector3d.DivScalarAssign`, `Vectors.Vector3d.DividedScalar`, `Vectors.DivScalar`: the divisor is non-zero;
  - `Matrices.Matrix4d.GetIndex`, `Get`, `Set`, `SetRow`, `SetColumn`, `SetRowVector` and `SetColumnVector`: the indices are in range;
  - `CppTransferFunctions.TransferFunction.AddSample`, `GetColor` and `GetAlpha`: the position lies in [0, 1], and for `AddSample` so do the colour and the alpha.
- Other preconditions state what the source's callers guarantee without
  checking:
  - `CppVolumes.Volume.GetVoxel` reads `m_voxelData` with no bounds check, so it requires coordinates inside the grid;
  - the in-range sampling lemmas of `VolumeSampling` take a non-empty grid (every size at least 1). The loader also accepts a header with a zero size; what the renderer does with such a volume is under "## Left out" (`DvrWidgets.GLWidgetDvr.CastRay`);
  - the C# `Volume` constructor takes `nat` sizes, because a negative size makes the .NET array allocation throw.

## Model

| member | source | states |
|---|---|---|
| ColorHsv.Sector | ColorHSVConverter.cs:20 | the sector `floor(hue / 60) mod 6`, with the truncating `%`, lies in 0..5 for a non-negative hue and strictly between -6 and 6 otherwise |
| ColorHsv.Fraction | ColorHSVConverter.cs:21 | the fraction lies in [0, 1) and adds to `floor(hue / 60)` to give `hue / 60` |
| ColorHsv.ColorFromHsv | ColorHSVConverter.cs:15-41 | alpha is 255 on every branch, and red, green and blue are each one of the intensities v, p, q and t |
| ColorHsv.UnsaturatedIsGrey | ColorHSVConverter.cs:23-27 | zero saturation gives a grey: red, green and blue all equal v |
| ColorHsv.HueZero | ColorHSVConverter.cs:21-30 | with fraction 0, t equals p, so hue 0 gives (v, p, p) |
| ColorHsv.SectorPeriodic | ColorHSVConverter.cs:20-21 | for a non-negative hue, adding 360 changes neither the sector nor the fraction |
| ColorHsv.HuePeriodic | ColorHSVConverter.cs:15-41 | for a non-negative hue, hue and hue + 360 give the same colour |
| ColorHsv.IntensitiesOrdered | ColorHSVConverter.cs:23-27 | with saturation and value in [0, 100], 0 <= p <= q, t <= v <= 255 |
| ColorHsv.ChannelBounds | ColorHSVConverter.cs:23-40 | with saturation and value in [0, 100], every channel lies in [p, v] with 0 <= p and v <= 255, and both v and p appear among the channels |
| RenderingModes.ToFriendlyString | Configuration/RenderingMode.cs:20-35 | a mode outside the four named ones falls back to its own number as text; a named mode's text starts with a capital letter |
| RenderingModes.NamedModes | Configuration/RenderingMode.cs:10-31 | Dvr, FirstHit, Mip and Average (ordinals 0 to 3) are the named modes and map to their four fixed display names |
| RenderingModes.IntToStringInjective | Configuration/RenderingMode.cs:32-33 | the fallback text is injective: different numbers give different text |
| RenderingModes.FriendlyStringInjective | Configuration/RenderingMode.cs:20-35 | different modes, named or not, give different display text |
| ViewPlanes.NewViewPlane | Data/ViewPlane.cs:28-46 | all four corners lie on z = -0.3, and the three matrices are left all zero |
| ViewPlanes.DirectionsOrthogonal | Data/ViewPlane.cs:38-40 | the projection, up and right directions are pairwise orthogonal |
| ViewPlanes.DirectionsUnit | Data/ViewPlane.cs:38-40 | the three directions are unit vectors |
| ViewPlanes.RightCrossUpIsProjection | Data/ViewPlane.cs:38-40 | right x up = projection direction |
| ViewPlanes.CornersPerpendicularToProjection | Data/ViewPlane.cs:38-45 | every edge between corners is orthogonal to the projection direction, so the corners span a plane facing it |
| ViewPlanes.CornersNotParallelogram | Data/ViewPlane.cs:42-45 | the upper corners share y = 1.2 but the bottom ones do not share a y, so the corners do not form a rectangle |
| CsVolumes.Volume.constructor | Data/Volume.cs:20-27 | the sizes are the arguments, the contents array has those dimensions and every voxel is 0 |
| CsVolumes.LoadFromDatFile | Data/Volume.cs:29-32 | the file name is ignored: the result is a fresh 1 x 1 x 1 volume of zeros |
| Numeric.TruncToInt | Logic/VolumeRenderer.cs:74-77 | the C# integer cast truncates toward zero: the integer part for non-negative values, and rounding up toward zero for negative ones |
| Numeric.TruncMod | ColorHSVConverter.cs:20 | the C# `%` remainder takes the sign of the dividend and is smaller in size than the divisor |
| Numeric.RoundHalfEven | ColorHSVConverter.cs:20-27 | `Math.Round` gives an integer within 0.5 of its argument |
| Numeric.RoundHalfEvenMonotone | Data/TransferFunction.cs:34 | rounding keeps the order of its arguments |
| Numeric.RoundHalfEvenOfInt | Data/TransferFunction.cs:95-100 | rounding an integer gives it back |
| Numeric.Clamp01 | cpp-renderer/transfer_function.h:311-336 | the result lies in [0, 1] and a value already in [0, 1] is kept |
| Numeric.SqrtOfSquare | cpp-renderer/Vector3d.h:125-128 | the square root parameter, as constrained, gives the absolute value of a number from its square |
| Vectors.Normalized | cpp-renderer/Vector3d.h:149-158 | a vector of positive magnitude is divided by it, so scaling the result back by the magnitude gives the vector; any other vector is returned unchanged |
| Vectors.NormalizedIsUnit | cpp-renderer/Vector3d.h:149-158 | normalising a non-zero vector gives a unit vector |
| Vectors.SquaredMagnitudeSign | cpp-renderer/Vector3d.h:131-134 | the squared magnitude is non-negative and zero exactly for the zero vector |
| Vectors.CrossOrthogonal | cpp-renderer/Vector3d.h:143-146 | the cross product is orthogonal to both arguments |
| Vectors.CrossAntiCommutative | cpp-renderer/Vector3d.h:143-146 | swapping the arguments negates the cross product |
| Vectors.DotProperties | cpp-renderer/Vector3d.h:131-140 | the dot product is symmetric, and a vector's dot with itself is its squared magnitude |
| Vectors.AddSubCancel | cpp-renderer/Vector3d.h:275-288 | adding then subtracting the same vector gives the original |
| Vectors.NegInvolutive | cpp-renderer/Vector3d.h:323-326 | negating twice gives the original |
| Vectors.Vector3d.constructor | cpp-renderer/Vector3d.h:15-20 | a new vector is zero |
| Vectors.Vector3d.FromComponents | cpp-renderer/Vector3d.h:23-28 | a new vector holds the three given components |
| Vectors.Vector3d.FromArray | cpp-renderer/Vector3d.h:31-36 | a new vector holds the first three elements of the array |
| Vectors.Vector3d.Copy | cpp-renderer/Vector3d.h:39-44 | a new vector equal to the other one |
| Vectors.Vector3d.Assign | cpp-renderer/Vector3d.h:47-56 | afterwards the vector equals the other one's former value, also when both are the same object |
| Vectors.Vector3d.Set | cpp-renderer/Vector3d.h:68-73 | the three components become the arguments |
| Vectors.Vector3d.SetX | cpp-renderer/Vector3d.h:76-79 | only the first component changes |
| Vectors.Vector3d.SetY | cpp-renderer/Vector3d.h:82-85 | only the second component changes |
| Vectors.Vector3d.SetZ | cpp-renderer/Vector3d.h:88-91 | only the third component changes |
| Vectors.Vector3d.Get | cpp-renderer/Vector3d.h:100-104 | element i, for i below 3 as the assertion demands |
| Vectors.Vector3d.Equals | cpp-renderer/Vector3d.h:191-194 | true exactly when all three components agree |
| Vectors.Vector3d.NotEquals | cpp-renderer/Vector3d.h:197-200 | true exactly when some component differs |
| Vectors.Vector3d.AddAssign | cpp-renderer/Vector3d.h:217-223 | the vector becomes the sum, also when added to itself |
| Vectors.Vector3d.SubAssign | cpp-renderer/Vector3d.h:226-232 | the vector becomes the difference, also when the other is itself |
| Vectors.Vector3d.MulAssign | cpp-renderer/Vector3d.h:235-241 | the vector becomes the element-wise product |
| Vectors.Vector3d.ScaleAssign | cpp-renderer/Vector3d.h:244-250 | every component is multiplied by the scalar |
| Vectors.Vector3d.DivAssign | cpp-renderer/Vector3d.h:253-262 | with no zero component in the divisor, as the assertions demand, the vector becomes the element-wise quotient |
| Vectors.Vector3d.DivScalarAssign | cpp-renderer/Vector3d.h:265-272 | with a non-zero divisor, as the assertion demands, every component is divided by it |
| Vectors.Vector3d.Plus | cpp-renderer/Vector3d.h:275-280 | a new vector holding the sum |
| Vectors.Vector3d.Minus | cpp-renderer/Vector3d.h:283-288 | a new vector holding the difference |
| Vectors.Vector3d.Times | cpp-renderer/Vector3d.h:291-296 | a new vector holding the element-wise product |
| Vectors.Vector3d.TimesScalar | cpp-renderer/Vector3d.h:299-304 | a new vector holding the scaled vector |
| Vectors.Vector3d.Divided | cpp-renderer/Vector3d.h:307-312 | a new vector holding the element-wise quotient |
| Vectors.Vector3d.DividedScalar | cpp-renderer/Vector3d.h:315-320 | a new vector holding the vector divided by the scalar |
| Vectors.Vector3d.Negated | cpp-renderer/Vector3d.h:323-326 | a new vector holding the opposite |
| Vectors.Vector3d.Oppose | cpp-renderer/Vector3d.h:185-188 | the vector becomes its opposite |
| Vectors.Vector3d.GetNormalized | cpp-renderer/Vector3d.h:149-158 | a new vector holding the normalised value, which `NormalizedIsUnit` shows is a unit vector for a non-zero vector |
| Vectors.Vector3d.Normalize | cpp-renderer/Vector3d.h:161-164 | the vector becomes its normalised value |
| Matrices.FromRowWise | cpp-renderer/Matrix4d.h:97-107 | arguments given row by row land column-major: row r, column c is stored at index 4c + r |
| Matrices.Identity | cpp-renderer/Matrix4d.h:168-172 | entry (r, c) is 1 on the diagonal and 0 elsewhere |
| Matrices.Product | cpp-renderer/Matrix4d.h:525-547 | entry (r, c) of the product is the sum over k of a(r, k) times b(k, c) |
| Matrices.Transposed | cpp-renderer/Matrix4d.h:467-474 | entry (r, c) of the transpose is entry (c, r) of the original |
| Matrices.TransformPoint | cpp-renderer/Matrix4d.h:557-564 | a result exists exactly when the fourth homogeneous row w is non-zero, and then the result times w gives the first three homogeneous rows |
| Matrices.TransposeInvolutive | cpp-renderer/Matrix4d.h:467-480 | transposing twice gives the original matrix |
| Matrices.ProductIdentity | cpp-renderer/Matrix4d.h:525-547 | the identity is neutral for the product on either side |
| Matrices.TranslationsCompose | cpp-renderer/Matrix4d.h:317-326 | translating by a and then by b is translating by a + b |
| Matrices.TranslationAndScalingAct | cpp-renderer/Matrix4d.h:317-338 | applied to a point, the translation matrix adds t and the scaling matrix multiplies element-wise by s |
| Matrices.AffineMulIgnoresTranslation | cpp-renderer/Matrix4d.h:483-489 | `AffineMul` does not read the translation entries 12 to 14, and a pure translation leaves the vector unchanged |
| Matrices.TranslationRoundTrip | cpp-renderer/Matrix4d.h:254-266 | `GetTranslation` after `SetTranslation(t)` gives t, and indices 0 to 11 are untouched |
| Matrices.Matrix4d.constructor | cpp-renderer/Matrix4d.h:91-95 | a new matrix is the identity |
| Matrices.Matrix4d.FromValues | cpp-renderer/Matrix4d.h:97-107 | a new matrix from sixteen values given row-wise, stored column-major |
| Matrices.Matrix4d.FromVectors | cpp-renderer/Matrix4d.h:110-117 | the vectors become rows one to four, the fourth column is 0, 0, 0, 1 |
| Matrices.Matrix4d.FromPointer | cpp-renderer/Matrix4d.h:120-123 | the sixteen values are copied as they are, with no reordering |
| Matrices.Matrix4d.FromArray44 | cpp-renderer/Matrix4d.h:126-129 | element [r][c] of the 4 x 4 array lands at index 4r + c |
| Matrices.Matrix4d.Copy | cpp-renderer/Matrix4d.h:140-143 | a new matrix with the other one's elements |
| Matrices.Matrix4d.SetAll | cpp-renderer/Matrix4d.h:162-165 | the elements become the given sixteen values |
| Matrices.Matrix4d.SetIdentity | cpp-renderer/Matrix4d.h:168-172 | the matrix becomes the identity |
| Matrices.Matrix4d.Get | cpp-renderer/Matrix4d.h:188-192 | `Get(row, col)` reads index 4 row + col, which is entry (col, row) of the documented column-major layout, i.e. the transpose's (row, col) |
| Matrices.Matrix4d.GetIndex | cpp-renderer/Matrix4d.h:195-199 | `Get(i)` for i below 16 reads entry (i mod 4, i div 4) of the column-major layout, the same element `Get(i div 4, i mod 4)` reads |
| Matrices.Matrix4d.Set | cpp-renderer/Matrix4d.h:181-185 | only index 4 row + col changes, and `Get(row, col)` then reads back the new value |
| Matrices.Matrix4d.SetRow | cpp-renderer/Matrix4d.h:202-209 | row `row` of the column-major layout takes the four values, all other rows unchanged |
| Matrices.Matrix4d.SetColumn | cpp-renderer/Matrix4d.h:212-219 | column `col` takes the four values, all other columns unchanged |
| Matrices.Matrix4d.SetRowVector | cpp-renderer/Matrix4d.h:222-228 | the first three entries of the row take the vector, the fourth and every other row are unchanged |
| Matrices.Matrix4d.SetColumnVector | cpp-renderer/Matrix4d.h:231-237 | the first three entries of the column take the vector, the fourth and every other column are unchanged |
| Matrices.Matrix4d.SetTranslation | cpp-renderer/Matrix4d.h:254-260 | indices 12 to 14 take the vector and index 15 becomes 1, the rest unchanged |
| Matrices.Matrix4d.GetTranslation | cpp-renderer/Matrix4d.h:263-266 | the translation read from indices 12 to 14 |
| Matrices.Matrix4d.GetTransposed | cpp-renderer/Matrix4d.h:467-474 | a new matrix holding the transpose |
| Matrices.Matrix4d.Transpose | cpp-renderer/Matrix4d.h:477-480 | the matrix becomes its transpose |
| Matrices.Matrix4d.Times | cpp-renderer/Matrix4d.h:525-547 | a new matrix holding this times other |
| Matrices.Matrix4d.PostMul | cpp-renderer/Matrix4d.h:510-517 | the matrix becomes this times other, also when other is this matrix |
| Matrices.Matrix4d.PreMul | cpp-renderer/Matrix4d.h:520-522 | the matrix becomes other times this |
| Matrices.Matrix4d.GetTranslated | cpp-renderer/Matrix4d.h:317-320 | a new matrix holding this times the translation matrix |
| Matrices.Matrix4d.Translate | cpp-renderer/Matrix4d.h:323-326 | the matrix becomes this times the translation matrix |
| Matrices.Matrix4d.GetScaled | cpp-renderer/Matrix4d.h:329-332 | a new matrix holding this times the scaling matrix |
| Matrices.Matrix4d.Scale | cpp-renderer/Matrix4d.h:335-338 | the matrix becomes this times the scaling matrix |
| Matrices.Matrix4d.AffineMulVector | cpp-renderer/Matrix4d.h:483-489 | the upper-left 3 x 3 block applied to the vector, which `AffineMulIgnoresTranslation` shows ignores the translation |
| Matrices.Matrix4d.Equals | cpp-renderer/Matrix4d.h:492-501 | true exactly when all sixteen elements agree |
| Matrices.Matrix4d.NotEquals | cpp-renderer/Matrix4d.h:504-507 | true exactly when some element differs |
| CsTransferFunctions.KeyOf | Data/TransferFunction.cs:34 | a table key `Math.Round(v, 2)` is the nearest hundredth: its value lies within 0.005 of v |
| CsTransferFunctions.KeyOfHundredth | Data/TransferFunction.cs:95-100 | the key written for k / 100 is found again by looking up k / 100 |
| CsTransferFunctions.KeyInTable | Data/TransferFunction.cs:32-35 | every value in [0, 1] rounds to one of the keys 0 to 100 |
| CsTransferFunctions.FirstBracketFromMeaning | Data/TransferFunction.cs:120-140 | the search from pair i succeeds exactly when some later adjacent pair brackets the value, returns the first such pair, and otherwise fails with the not-between-nodes error |
| CsTransferFunctions.NeighboringNodesMeaning | Data/TransferFunction.cs:120-140 | `GetNeighboringNodes` finds a pair exactly when some adjacent pair has lower <= v <= higher, returns the first one, and throws otherwise (also on an empty list) |
| CsTransferFunctions.LinearInterpolateIsLerp | Data/TransferFunction.cs:142-145 | the interpolation is the convex combination of y0 and y1 at the fraction (x - x0) / (x1 - x0) |
| CsTransferFunctions.LinearInterpolateBounded | Data/TransferFunction.cs:142-145 | y0 at x0 and y1 at x1, and between them a value between any bounds of y0 and y1 |
| CsTransferFunctions.ColorOfIntensity | Data/TransferFunction.cs:30-58 | the direct colour exists exactly when a bracketing pair does |
| CsTransferFunctions.OpacityOfIntensity | Data/TransferFunction.cs:60-81 | the direct opacity exists exactly when a bracketing pair does |
| CsTransferFunctions.IntensityBounded | Data/TransferFunction.cs:37-79 | with node colours in [0, 255] and opacities in [0, 1], the opacity stays in [0, 1], an interpolated colour is in [0, 1] and an equal-input colour in [0, 255] |
| CsTransferFunctions.EqualInputsGiveRawColor | Data/TransferFunction.cs:40-57 | an equal-input pair returns the higher node's colour without the division by 255, unlike an interpolating pair |
| CsTransferFunctions.DefaultIsGreyRamp | Data/TransferFunction.cs:19-28 | the two starting nodes give colour (v, v, v) and opacity v for v in [0, 1], and no colour outside it |
| CsTransferFunctions.Insert | Data/TransferFunction.cs:104-118 | an insertion step of the library sort adds exactly that node, and the list starts with either the node or the old first node |
| CsTransferFunctions.InsertSorted | Data/TransferFunction.cs:104-118 | inserting into a list sorted by input keeps it sorted |
| CsTransferFunctions.InsertAtEnd | Data/TransferFunction.cs:104-118 | a node with an input at least every other input is inserted last |
| CsTransferFunctions.InsertionSort | Data/TransferFunction.cs:104-118 | insertion sorting keeps the same nodes (a permutation) |
| CsTransferFunctions.InsertionSortSorted | Data/TransferFunction.cs:104-118 | insertion sorting gives a list ascending by input |
| CsTransferFunctions.InsertionSortKeepsSorted | Data/TransferFunction.cs:104-118 | insertion sorting leaves an ascending list unchanged (it is stable on sorted input) |
| CsTransferFunctions.SwapIfGreater | Data/TransferFunction.cs:106-117 | a compare-and-swap step keeps the same nodes and leaves the two positions in ascending order |
| CsTransferFunctions.SortByInput | Data/TransferFunction.cs:104-118 | sorting keeps the same nodes (a permutation) |
| CsTransferFunctions.SortByInputSorted | Data/TransferFunction.cs:104-118 | the sorted list is ascending by input value, for the two-, three- and insertion-sort paths |
| CsTransferFunctions.SortByInputKeepsSorted | Data/TransferFunction.cs:104-118 | an ascending list is left unchanged, so a node added with the largest input stays after nodes with an equal input |
| CsTransferFunctions.AddAtTopKeepsRamp | Data/TransferFunction.cs:83-88 | a node added to the default function at input 1 stays after the white node, so every value below 1 still gets its grey |
| CsTransferFunctions.LookupMatchesDirect | Data/TransferFunction.cs:32-35 | a full table answers a query with the direct result at its nearest hundredth when that key is in 0..100, which every query in [0, 1] meets, and throws `KeyNotFound` otherwise |
| CsTransferFunctions.TableExactAtKeys | Data/TransferFunction.cs:95-101 | at each key k / 100 the tables hold exactly the direct colour and opacity |
| CsTransferFunctions.DefaultCovered | Data/TransferFunction.cs:19-28 | every key 0 to 100 has a bracketing pair among the starting nodes, so building the tables succeeds |
| CsTransferFunctions.TransferFunction.constructor | Data/TransferFunction.cs:19-28 | the two starting nodes, with both tables built over keys 0 to 100 |
| CsTransferFunctions.TransferFunction.GetColorOfIntensity | Data/TransferFunction.cs:30-58 | with the table, an entry exactly when the query's key is in the table; without it, the direct colour |
| CsTransferFunctions.TransferFunction.GetOpacityOfIntensity | Data/TransferFunction.cs:60-81 | with the table, an entry exactly when the query's key is in the table; without it, the direct opacity |
| CsTransferFunctions.TransferFunction.RecalculateLookupTables | Data/TransferFunction.cs:90-102 | throws exactly when some key 0..100 has no bracketing pair, leaving the tables filled up to the first such key; otherwise both tables hold the direct results at the 101 keys, which depend only on the nodes, so a second run gives the same tables |
| CsTransferFunctions.TransferFunction.AddNode | Data/TransferFunction.cs:83-88 | one more node, the list sorted, and exactly the new node added to the old ones |
| CsTransferFunctions.TransferFunction.SortListOfTfNodes | Data/TransferFunction.cs:104-118 | the list becomes sorted ascending by input and keeps the same nodes |
| CsTransferFunctions.TransferFunction.GetNeighboringNodes | Data/TransferFunction.cs:120-140 | the loop returns the first bracketing pair, or the error, as `NeighboringNodes` defines it |
| Viewports.TransformScale | Data/Viewport.cs:163-166 | transforming by `CreateScale(s)` multiplies the point by s |
| Viewports.TransformTranslation | Data/Viewport.cs:168-171 | transforming by `CreateTranslation(t)` adds t |
| Viewports.TransformRotationByZero | Data/Viewport.cs:96-104 | a rotation by angle 0 about X or Y leaves the point unchanged |
| Viewports.ZoomedScaling | Data/Viewport.cs:69-74 | the zoom factor never drops below 0.01, and a sum above 0.01 is kept as is |
| Viewports.FrameOf | Data/Viewport.cs:183-187 | the up span is upper left minus bottom left, the right span upper right minus upper left, and the projection direction is their normalised cross product |
| Viewports.PlaceWithoutRotation | Data/Viewport.cs:161-181 | with both rotations at zero, a corner is the initial corner scaled and then translated |
| Viewports.SpansWithoutRotation | Data/Viewport.cs:183-184 | with both rotations at zero, the right span is (1.4 s, 0, 0) and the up span (0, 1.4 s, 0) for zoom factor s |
| Viewports.NormalizedZAxis | Data/Viewport.cs:187 | normalising (0, 0, c) for c > 0 gives (0, 0, 1) |
| Viewports.CrossOfSpans | Data/Viewport.cs:186 | the cross product of an X-axis and a Y-axis span points along Z |
| Viewports.DirectionOfAxisSpans | Data/Viewport.cs:186-187 | equal positive spans along X and Y give the projection direction (0, 0, 1) |
| Viewports.ZeroRotationFacesAlongZ | Data/Viewport.cs:161-188 | with no rotation and a positive zoom factor, any translation leaves the projection direction at +Z |
| Viewports.SlabIntervalExact | Data/Viewport.cs:202-210 | a ray parameter lies in the ordered (t0, t1) of one axis exactly when the point's coordinate lies in [0, size] |
| Viewports.SlabIntervalRising | Data/Viewport.cs:202-210 | for a positive direction component no swap happens, and the interval is exact |
| Viewports.SlabIntervalFalling | Data/Viewport.cs:202-210 | for a negative direction component t0 and t1 are swapped, and the interval is exact |
| Viewports.PointAtExact | Data/Viewport.cs:200-253 | a point of the ray is in the box exactly when its parameter lies in all three axis intervals |
| Viewports.CoordinateInSlab | Data/Viewport.cs:202-238 | the per-axis form of the same equivalence |
| Viewports.SlabHit | Data/Viewport.cs:222-253 | when the test reports a hit, tmin <= tmax |
| Viewports.SlabHitExact | Data/Viewport.cs:200-264 | the test reports a hit exactly when some point of the line lies in the box, and then both returned points lie in the box |
| Viewports.HitMayLieBehind | Data/Viewport.cs:200-264 | a box wholly behind the ray's start (tmax < 0) is still reported as a hit |
| Viewports.OrderedSlab | Data/Viewport.cs:202-210 | the swap leaves t0 <= t1 and gives the axis interval |
| Viewports.Viewport.constructor | Data/Viewport.cs:47-61 | the viewport starts translated by (0, 0, -0.8), unrotated, at zoom factor 1, with its corners and spans recomputed |
| Viewports.Viewport.RecalculateViewPlaneVectors | Data/Viewport.cs:161-188 | the corners, spans and direction become the frame of the current matrices, and nothing else changes |
| Viewports.Viewport.Zoom | Data/Viewport.cs:67-79 | the zoom factor becomes the clamped sum, translation and rotation are unchanged, and the matrices and frame stay consistent |
| Viewports.Viewport.Move | Data/Viewport.cs:84-91 | the translation accumulates the argument, rotation and zoom are unchanged, and the frame is recomputed |
| Viewports.Viewport.Rotate | Data/Viewport.cs:96-104 | both rotation angles accumulate the argument, translation and zoom are unchanged, and the frame is recomputed |
| Viewports.Viewport.GetPointsWhereViewportRaysIntersectVolume | Data/Viewport.cs:200-265 | the result is the slab test's entry and exit points along the projection direction, or none |
| Viewports.Viewport.GetRayBoxIntersectionPointsInModelSpace | Data/Viewport.cs:118-148 | the ray starts at bottom left + x right span + y up span, mapped to model space by centre + p times the largest size; the result is true with the entry and exit points exactly when the slab test hits, otherwise false with both points zero |
| Viewports.UnrotatedViewportLooksAlongZ | Data/Viewport.cs:47-61 | a consistent viewport whose rotation is zero looks along +Z, however it has been moved and zoomed |
| CsRenderers.Grey | Logic/VolumeRenderer.cs:74-77 | the hit colour is an opaque grey, and for a non-negative sample each channel is `(int)(v * 255)`, the integer part of v times 255; a sample in [0, 256/255) gives channels in 0..255, the range `Color.FromArgb` accepts |
| CsRenderers.AdvancedIsLinear | Logic/VolumeRenderer.cs:80 | after k steps the ray position is start + k times 0.01 times the direction |
| CsRenderers.MarchStep | Logic/VolumeRenderer.cs:64-82 | at a step below the cutoff, a sample above 0 gives its grey and otherwise the march goes on one step further |
| CsRenderers.MarchMissFrom | Logic/VolumeRenderer.cs:64-84 | if no remaining sample before the cutoff exceeds 0, the march ends black |
| CsRenderers.MarchHitFrom | Logic/VolumeRenderer.cs:64-78 | the march returns the grey of the first remaining sample above 0 |
| CsRenderers.FirstHitOutcome | Logic/VolumeRenderer.cs:52-85 | a ray is black when none of its 120 samples exceeds 0, and otherwise takes the grey of the first one that does |
| CsRenderers.FaintHitLooksBlack | Logic/VolumeRenderer.cs:72-78 | a sample in (0, 1/255) is a hit whose grey truncates to 0, so black does not mean that the ray missed |
| CsRenderers.OnlyFirstSamplesMatter | Logic/VolumeRenderer.cs:60-82 | two samplers that agree on the first 120 samples of a ray give it the same colour |
| CsRenderers.ViewportCoordinate | Logic/VolumeRenderer.cs:36 | a pixel index inside the image becomes a coordinate in [0, 1) |
| CsRenderers.VolumeRenderer.constructor | Logic/VolumeRenderer.cs:22-26 | the renderer keeps the given volume and starts with a fresh view plane |
| CsRenderers.VolumeRenderer.CastRayFirstHit | Logic/VolumeRenderer.cs:52-85 | the loop returns exactly the first-hit colour of the ray, whose outcome `FirstHitOutcome` states |
| CsRenderers.VolumeRenderer.Render | Logic/VolumeRenderer.cs:28-43 | a fresh 128 x 128 image whose pixel (x, y) is the first-hit colour of the ray at (x / 128, y / 128) |
| CsRenderers.VolumeRenderer.RenderColumn | Logic/VolumeRenderer.cs:34-39 | the inner loop sets column x to the first-hit colours of its rays and leaves every other column as it was |
| CsRenderers.VolumeRenderer.RenderPixel | Logic/VolumeRenderer.cs:36-38 | pixel (x, y) takes the first-hit colour of the ray at (x / 128, y / 128) and no other pixel changes |
| Grids.IndexInRange | cpp-renderer/Volume.h:123-130 | every voxel inside the grid is stored inside the `width * height * depth` data array |
| Grids.CoordinatesOfIndex | cpp-renderer/Volume.h:128-130 | reading back the coordinates of a voxel's index `sliceSize * z + width * y + x` gives the voxel |
| Grids.IndexOfCoordinates | cpp-renderer/Volume.h:128-130 | every index of the data array holds exactly one voxel of the grid |
| Grids.IndexInjective | cpp-renderer/Volume.h:128-130 | different voxels are stored at different indices |
| Grids.IndexSteps | cpp-renderer/Volume.h:177-193 | the z, y, x loop order visits the indices in increasing order, one at a time |
| VolumeSampling.LerpEnds | cpp-renderer/Volume.h:288-296 | one interpolation step gives its first end at fraction 0 and its second at 1 |
| VolumeSampling.LerpBounded | cpp-renderer/Volume.h:288-296 | for a fraction in [0, 1] the step stays within any bounds of both ends |
| VolumeSampling.ClampCoordinate | cpp-renderer/Volume.h:246-266 | a coordinate is clamped into [0, size - 1]: below 0 it becomes 0, past the top size - 1, and inside it is kept |
| VolumeSampling.BlendBounded | cpp-renderer/Volume.h:284-298 | the trilinear blend of eight corners lies within any bounds of all eight |
| VolumeSampling.TrilinearAtGridPoint | cpp-renderer/Volume.h:243-299 | at a voxel's own coordinates `getVoxelTrilinear` gives that voxel |
| VolumeSampling.AtWithin | cpp-renderer/Volume.h:128-130 | a voxel lies within bounds that hold for all voxels |
| VolumeSampling.CornersWithin | cpp-renderer/Volume.h:271-279 | the eight floor and ceiling corners of a clamped point keep the voxels' bounds |
| VolumeSampling.TrilinearBounded | cpp-renderer/Volume.h:243-299 | the interpolated value at any point keeps the voxels' bounds, e.g. [0, 1] for 12-bit data |
| VolumeSampling.NearestBelowInGrid | cpp-renderer/Volume.h:510-535 | `getGradientMagnitude` at a non-negative point reads the voxel at the floor of each coordinate, or the last one past the top |
| VolumeSampling.NearestBelowAtGridPoint | cpp-renderer/Volume.h:510-535 | truncation and interpolation agree at the voxels themselves |
| VolumeSampling.SamplesNonNegative | cpp-renderer/Volume.h:510-590 | non-negative data gives non-negative samples by truncation and by trilinear interpolation |
| VolumeSampling.ClosestIndex | cpp-renderer/Volume.h:216-235 | `(int)floor(c + 0.5)` is the nearest integer below the size, and lowered to size - 1 once it reaches the size |
| VolumeSampling.ClosestInGrid | cpp-renderer/Volume.h:214-240 | from -0.5 upward on every axis `getVoxelClosest` reads the nearest voxel, clamped to the last one at the top |
| VolumeSampling.ClosestAtGridPoint | cpp-renderer/Volume.h:214-240 | a voxel's own coordinates read that voxel |
| VolumeSampling.ClosestNegativeNotClamped | cpp-renderer/Volume.h:216-235 | only the upper side is clamped: x = -1 on row 1 reads the last voxel of row 0, and on row 0 of slice 0 it reads before the data |
| VolumeGradients.InteriorVoxel | cpp-renderer/Volume.h:328-329 | a voxel on no face exists exactly when the grid has an interior |
| VolumeGradients.GradientAtIndexOf | cpp-renderer/Volume.h:331-354 | the gradient stored at a voxel's index is that voxel's gradient |
| VolumeGradients.ConstantVolumeIsFlat | cpp-renderer/Volume.h:324-354 | a volume of one value everywhere has a zero gradient everywhere |
| VolumeGradients.RampStep | cpp-renderer/Volume.h:335-337 | the halved central difference of a linear ramp on each axis is its slope on that axis |
| VolumeGradients.RampGradient | cpp-renderer/Volume.h:332-341 | method 0 recovers the slope (a, b, c) of a linear ramp exactly at every interior voxel |
| VolumeGradients.MagnitudeIsLength | cpp-renderer/Volume.h:354 | each stored magnitude is the non-negative length of its gradient, zero exactly for a zero gradient |
| VolumeHistogram.Bin | cpp-renderer/Volume.h:621-628 | a non-negative value falls in one of the 200 bins: the nearest integer to 200 v, or bin 99 once that passes 199 |
| VolumeHistogram.FullScaleInMiddleBin | cpp-renderer/Volume.h:624-628 | the full-scale value 1.0 is counted in bin 99, next to 0.5 in bin 100, and 0 in bin 0 |
| VolumeHistogram.SumCountsAppend | cpp-renderer/Volume.h:620-636 | one more voxel adds one to the summed counts when its bin is among those summed |
| VolumeHistogram.CountsSumToSize | cpp-renderer/Volume.h:610-636 | with no negative voxel every voxel is counted in exactly one bin, so the 200 counts add up to the number of voxels |
| DatFormat.Byte2Int | cpp-renderer/Volume.h:18-23 | the little-endian word of two bytes lies in [0, 65535] |
| DatFormat.Byte2IntRoundTrip | cpp-renderer/Volume.h:18-23 | decoding a word's bytes gives back the word, and encoding a decoded pair gives back the pair |
| DatFormat.Decode | cpp-renderer/Volume.h:153-193 | a successful read is well formed (16-bit sizes, one 16-bit word per voxel) and fits in the data |
| DatFormat.EncodeWords | cpp-renderer/Volume.h:177-189 | each word becomes its two bytes, low byte first |
| DatFormat.Encode | cpp-renderer/Volume.h:153-193 | the encoded file is a 6-byte header and two bytes per voxel |
| DatFormat.DecodeEncode | cpp-renderer/Volume.h:153-193 | reading a file written in the format gives it back, whatever bytes follow it |
| DatFormat.EncodeWordsRead | cpp-renderer/Volume.h:187-188 | words read from the data encode back to the bytes they came from |
| DatFormat.EncodeDecode | cpp-renderer/Volume.h:153-193 | a successfully read file is the encoding of what was read, followed by whatever came after it |
| DatFormat.Read2 | cpp-renderer/Volume.h:156-161 | a read that does not reach the end moves two bytes on and fills the buffer with them |
| DatFormat.VoxelsAsWrittenComplete | cpp-renderer/Volume.h:177-193 | on data long enough for every voxel, the loop as written reads each word in turn |
| DatFormat.AsWrittenAgreesOnCompleteFiles | cpp-renderer/Volume.h:141-208 | wherever the decoder succeeds, the program loads the same file |
| DatFormat.StaleVoxel | cpp-renderer/Volume.h:181-189 | past the last byte, one more voxel is read and takes the word left in the buffer |
| DatFormat.HeaderAsWritten | cpp-renderer/Volume.h:154-161 | on a complete header the three reads leave the stream at the first voxel with the depth word in the buffer |
| DatFormat.HeaderOnlyLoads | cpp-renderer/Volume.h:154-193 | a file that is only a 1 x 1 x 1 header loads, with the depth word as its voxel |
| DatFormat.TruncatedFileLoads | cpp-renderer/Volume.h:177-193 | the 6-byte file 1, 0, 1, 0, 1, 0 loads as written but is rejected by the decoder |
| CppVolumes.VoxelValue | cpp-renderer/Volume.h:188-189 | a 12-bit word scales into [0, 1], 4095 to exactly 1, and any 16-bit word into [0, 65535 / 4095] |
| CppVolumes.ExtendGradients | cpp-renderer/Volume.h:324-354 | storing voxel n's gradient and magnitude extends the computed prefix by one |
| CppVolumes.GradientMagnitudesNonNegative | cpp-renderer/Volume.h:354 | with an exact square root, every stored gradient magnitude is non-negative, being a length |
| CppVolumes.ExtendVoxels | cpp-renderer/Volume.h:187-189 | storing voxel n's scaled word extends the read prefix by one |
| CppVolumes.ReadVoxels | cpp-renderer/Volume.h:177-193 | the z, y, x loops with the end-of-data check corrected (see Findings): they succeed exactly when the data holds every voxel, and then every voxel holds its scaled word |
| CppVolumes.ReadRow | cpp-renderer/Volume.h:179-191 | one row of the x loop with the corrected end-of-data check extends the read prefix to the row's end, or fails only on data too short for the volume |
| CppVolumes.DecodedVoxels | cpp-renderer/Volume.h:157-189 | fully read voxels are the decoded file's scaled words, lie in [0, 65535 / 4095], and sit at their grid positions |
| CppVolumes.Volume.constructor | cpp-renderer/Volume.h:43-45 | a new volume has every size 0 and no data |
| CppVolumes.Volume.GetScalingFactor | cpp-renderer/Volume.h:104-119 | the scaling factor is one of the three sizes and at least each of them, so the `throw` cannot be reached |
| CppVolumes.Volume.GetVoxel | cpp-renderer/Volume.h:123-130 | the voxel at grid position (x, y, z) |
| CppVolumes.Volume.LoadVolumeDat | cpp-renderer/Volume.h:141-208 | the corrected load (see Findings) succeeds exactly when the decoder does, and then the sizes and every voxel come from the file, scaled into [0, 65535 / 4095], with the method-0 gradients and the histogram computed; on failure after a whole header the sizes are the header's and a fresh voxel array of that size is in place; on any failure the old gradients, gradient magnitudes and histogram stay, beside the new sizes |
| CppVolumes.Volume.GradientOfVoxel | cpp-renderer/Volume.h:328-351 | a voxel throws exactly when it is inside and the method is neither 0 nor 1; otherwise its gradient is zero on the border, central differences for method 0 and zero for method 1 |
| CppVolumes.Volume.CalculateGradients | cpp-renderer/Volume.h:308-360 | fresh arrays; the run throws exactly when the method is unknown and the grid has an interior, and otherwise every voxel holds its gradient and its magnitude; sizes, voxels and histogram unchanged |
| CppVolumes.Volume.GradientsOfSlice | cpp-renderer/Volume.h:324-359 | one slice of the z loop throws exactly on an inner slice with an unknown method and an interior, and otherwise extends the prefix to the slice's end |
| CppVolumes.Volume.GradientsOfRow | cpp-renderer/Volume.h:325-358 | one row of the y loop throws exactly on an inner row with an unknown method, and otherwise extends the prefix to the row's end |
| CppVolumes.Volume.CalculateHistogram | cpp-renderer/Volume.h:610-651 | 200 bins, each the cube root of how many voxels fall in it |
| CppVolumes.Volume.Swap | cpp-renderer/Volume.h:70-79 | every field but the histogram is exchanged with the other volume's, and two consistent volumes stay consistent |
| CppVolumes.Volume.SetFields | cpp-renderer/Volume.h:70-79 | every field but the histogram takes the given value |
| CppTransferFunctions.DefaultSamples | cpp-renderer/transfer_function.h:43-59 | the reset samples are consistent (first at 0, last at 1, sorted) with colours and alpha in [0, 1] |
| CppTransferFunctions.PositionAt | cpp-renderer/transfer_function.h:281 | the position of step i of n is i / n, in [0, 1) |
| CppTransferFunctions.PositionsRise | cpp-renderer/transfer_function.h:279-281 | positions rise with the step |
| CppTransferFunctions.CursorBefore | cpp-renderer/transfer_function.h:261-303 | the current sample of the discretising loop always has a next sample |
| CppTransferFunctions.Entry | cpp-renderer/transfer_function.h:283-343 | table entry i sits at position i / n with colour and alpha clamped into [0, 1] |
| CppTransferFunctions.PrefixEntries | cpp-renderer/transfer_function.h:279-344 | the first k entries of the loop are the entries for steps 0 to k - 1 |
| CppTransferFunctions.CursorStep | cpp-renderer/transfer_function.h:283-303 | each step advances the current sample by at most one, and appends that step's entry |
| CppTransferFunctions.EntryFrom | cpp-renderer/transfer_function.h:305-343 | an entry is the clamped interpolation between the current and the next sample |
| CppTransferFunctions.Discretized | cpp-renderer/transfer_function.h:258-353 | the table has one entry per step plus the last sample copied as is; every stepped entry sits at i / n in [0, 1], so the whole table is in [0, 1] when the last sample is |
| CppTransferFunctions.DiscretizedFrom | cpp-renderer/transfer_function.h:346-352 | the table is the loop's entries followed by the last sample |
| CppTransferFunctions.CursorNotAhead | cpp-renderer/transfer_function.h:283-289 | the sample the loop interpolates from never lies past the step's position |
| CppTransferFunctions.DefaultCursorStays | cpp-renderer/transfer_function.h:279-290 | on the reset samples the loop never advances past the first pair |
| CppTransferFunctions.DefaultTableIsGreyRamp | cpp-renderer/transfer_function.h:43-62 | after a reset, entry i is the grey (p, p, p) with alpha p at p = i / n |
| CppTransferFunctions.NearestInt | cpp-renderer/transfer_function.h:407 | `number < 0 ? ceil(number - 0.5) : floor(number + 0.5)` is within 0.5 of the number |
| CppTransferFunctions.RoundToNearest5 | cpp-renderer/transfer_function.h:405-421 | the intended rounding gives a multiple of 5 within 2 of the nearest integer |
| CppTransferFunctions.RoundToNearest5IsNearest | cpp-renderer/transfer_function.h:405-421 | every other multiple of 5 is at least 3 away, so the result is the nearest multiple of 5 |
| CppTransferFunctions.RoundAsWrittenAgreesOnNonNegative | cpp-renderer/transfer_function.h:406-421 | for non-negative input the code as written and the intended rounding agree |
| CppTransferFunctions.RoundAsWrittenTowardZero | cpp-renderer/transfer_function.h:409-416 | for negative input the code as written gives a multiple of 5 between the nearest integer and 4 above it, i.e. toward zero |
| CppTransferFunctions.RoundAsWrittenNegativeCounterexample | cpp-renderer/transfer_function.h:406-421 | -3 is rounded to 0 as written, where the nearest multiple of 5 is -5 |
| CppTransferFunctions.TargetIndex | cpp-renderer/transfer_function.h:149-154 | the lookup index is a multiple of 5 whose whole tuple lies inside the table |
| CppTransferFunctions.TargetIndexNear | cpp-renderer/transfer_function.h:149-154 | the lookup index lies between sample * size - 5 and sample * size + 2.5 |
| CppTransferFunctions.TargetIndexIs | cpp-renderer/transfer_function.h:149-154 | the index is the rounded value, moved back one tuple when it reaches the end of the table |
| CppTransferFunctions.TargetIndexBounds | cpp-renderer/transfer_function.h:149-153 | the rounded value lies in [0, size], reaches the last tuple only at size, and is within 2.5 of sample * size |
| CppTransferFunctions.TupleFor | cpp-renderer/transfer_function.h:149-158 | the selected tuple is inside the table |
| CppTransferFunctions.TupleForNear | cpp-renderer/transfer_function.h:149-158 | the selected tuple lies within one tuple below, or half a tuple above, sample times the tuple count |
| CppTransferFunctions.DefaultEntryNear | cpp-renderer/transfer_function.h:43-62 | a reset table's entry near 100 v is grey with alpha equal to it, within one step of v |
| CppTransferFunctions.DefaultLookupIsGrey | cpp-renderer/transfer_function.h:140-176 | after a reset, looking up v gives red = green = blue = alpha within one table step of v |
| CppTransferFunctions.InsertionPoint | cpp-renderer/transfer_function.h:107-111 | a found pair lies at or after the start of the search and has a next sample |
| CppTransferFunctions.InsertionPointMeaning | cpp-renderer/transfer_function.h:107-131 | the search finds the first pair that encloses the value, and fails exactly when none does |
| CppTransferFunctions.InsertionFound | cpp-renderer/transfer_function.h:105-113 | a value between the first and the last sample's positions always finds a pair, as the code's comment assumes |
| CppTransferFunctions.InsertAfter | cpp-renderer/transfer_function.h:117-128 | inserting after tuple k puts the new tuple at k + 1 and shifts the rest up by one |
| CppTransferFunctions.InsertKeepsConsistent | cpp-renderer/transfer_function.h:104-131 | inserting into an enclosing pair keeps the vector consistent, adds exactly the new sample, and keeps colours in [0, 1] |
| CppTransferFunctions.InsertAddsOne | cpp-renderer/transfer_function.h:117-128 | the samples after insertion are the old ones plus the new one |
| CppTransferFunctions.InsertKeepsSorted | cpp-renderer/transfer_function.h:111-128 | inserting into an enclosing pair keeps the positions sorted |
| CppTransferFunctions.LastAt | cpp-renderer/transfer_function.h:187-189 | a found sample lies before the search's start and sits exactly at the position |
| CppTransferFunctions.LastAtMeaning | cpp-renderer/transfer_function.h:187-195 | the backward search finds the last sample at the position, and fails exactly when none is there |
| CppTransferFunctions.EraseInnerKeepsConsistent | cpp-renderer/transfer_function.h:191 | erasing an inner sample keeps the vector consistent, removes exactly that sample, and keeps colours in [0, 1] |
| CppTransferFunctions.EraseKeepsSorted | cpp-renderer/transfer_function.h:191 | erasing a sample keeps the positions sorted |
| CppTransferFunctions.EraseRemovesOne | cpp-renderer/transfer_function.h:191 | the samples after erasing are the old ones minus that one |
| CppTransferFunctions.RemovedKeepsConsistent | cpp-renderer/transfer_function.h:181-196 | removal keeps the vector consistent and shrinks it by one exactly when the position is neither 0 nor 1 and some sample sits there; it never adds a sample |
| CppTransferFunctions.Candidate | cpp-renderer/transfer_function.h:205-227 | a pair offers a candidate only if it encloses the target; the candidate is the nearer of its two samples, within the threshold, and passes the alpha test |
| CppTransferFunctions.ClosestMeaning | cpp-renderer/transfer_function.h:198-231 | the search gives -1 exactly when no pair offers a candidate, and otherwise a sample position within the threshold of the target |
| CppTransferFunctions.ClosestIsNearest | cpp-renderer/transfer_function.h:198-200 | an answer other than -1 is the closest sample to the target: no sample lies nearer, and its alpha passes the constraint |
| CppTransferFunctions.ClosestNoneMeaning | cpp-renderer/transfer_function.h:198-200 | with alpha = -1 and a target in [0, 1], the answer is -1 exactly when every sample is more than the threshold away |
| CppTransferFunctions.ClosestOutsideUnit | cpp-renderer/transfer_function.h:203-231 | a target outside [0, 1] lies in no pair, so the answer is -1 even where a sample is within the threshold |
| CppTransferFunctions.TransferFunction.constructor | cpp-renderer/transfer_function.h:23-25 | a new transfer function holds the reset samples and their 100-step table |
| CppTransferFunctions.TransferFunction.Reset | cpp-renderer/transfer_function.h:43-62 | the samples become black transparent at 0 and white opaque at 1, with the table rebuilt at 100 steps |
| CppTransferFunctions.TransferFunction.DiscretizeSamples | cpp-renderer/transfer_function.h:258-353 | the loop builds exactly the table `Discretized` defines, whose properties its lemmas state |
| CppTransferFunctions.TransferFunction.AddSample | cpp-renderer/transfer_function.h:92-137 | with the asserted ranges, an enclosing pair always exists; the sample is inserted after the first one, the vector stays consistent with colours in [0, 1], exactly the new sample is added, and the table is rebuilt |
| CppTransferFunctions.TransferFunction.GetColor | cpp-renderer/transfer_function.h:140-162 | the colour of the tuple `TupleFor` selects, in [0, 1] when the table is |
| CppTransferFunctions.TransferFunction.GetAlpha | cpp-renderer/transfer_function.h:165-176 | the alpha of the tuple `TupleFor` selects, in [0, 1] when the table is |
| CppTransferFunctions.TransferFunction.RemoveSample | cpp-renderer/transfer_function.h:178-196 | the samples lose the last one at that position unless it is 0 or 1, the vector stays consistent and the table is left as it was |
| CppTransferFunctions.TransferFunction.FindClosestSample | cpp-renderer/transfer_function.h:201-231 | the loop returns the search's result: an answer other than -1 is within the threshold, no sample is nearer, and its alpha passes; with alpha -1 and a target in [0, 1] it is -1 exactly when every sample is beyond the threshold; outside [0, 1] it is -1 |
| CppTransferFunctions.TransferFunction.UpdateEdgeSample | cpp-renderer/transfer_function.h:234-249 | at 0 the first sample, at 1 the last one takes the colour and alpha, any other position changes nothing; the table is rebuilt in every case |
| DvrWidgets.ClipAxis | cpp-renderer/glwidgetdvr.h:718-742 | an axis that passes narrows the parameter range to an ordered sub-range that still ends at or beyond the ray's start |
| DvrWidgets.ClipAxisExact | cpp-renderer/glwidgetdvr.h:718-742 | a parameter t stays in the narrowed range exactly when it was in the old range and the ray's coordinate at t lies between 0 and the slab's far plane (for t at or beyond the start) |
| DvrWidgets.ClipAxisAtPoint | cpp-renderer/glwidgetdvr.h:718-795 | the same for each of the three axes, about the coordinate of the point start + t·direction |
| DvrWidgets.BoxClip | cpp-renderer/glwidgetdvr.h:711-795 | the range the test returns lies within [-500000, 500000], is ordered, and ends at or beyond the ray's start |
| DvrWidgets.BoxClipSound | cpp-renderer/glwidgetdvr.h:711-795 | every parameter of the returned range puts the ray inside the box [0, size] |
| DvrWidgets.BoxClipComplete | cpp-renderer/glwidgetdvr.h:711-795 | every parameter in [0, 500000] that puts the ray inside the box lies in the returned range |
| DvrWidgets.BoxHitMeaning | cpp-renderer/glwidgetdvr.h:700-795 | the test reports a hit exactly when the ray meets the box at some parameter in [0, 500000] |
| DvrWidgets.ClipSlab | cpp-renderer/glwidgetdvr.h:718-742 | one axis block as statements agrees with ClipAxis, pass or fail and the new range |
| DvrWidgets.FindBoxIntersectionPoints | cpp-renderer/glwidgetdvr.h:707-817 | reports a hit exactly when BoxClip does, and then yields the entry and exit points at the two ends of the range; on a miss the out-parameters keep their values |
| DvrWidgets.StepCountMeaning | cpp-renderer/glwidgetdvr.h:479 | the marching loops run for exactly the counts k with k·stepSize below the ray length |
| DvrWidgets.FailurePixel | cpp-renderer/glwidgetdvr.h:390-399 | a failed read ends the cast with the throw or the out-of-bounds read |
| DvrWidgets.FirstHitMeaning | cpp-renderer/glwidgetdvr.h:471-491 | the first-hit loop returns the first value above the threshold, every value before it having been read and at most the threshold; a value at most the threshold comes back only when no value read exceeded it |
| DvrWidgets.FirstHitInUnit | cpp-renderer/glwidgetdvr.h:471-491 | the first-hit value lies in [0, 1] when every value read does |
| DvrWidgets.MaxFromMeaning | cpp-renderer/glwidgetdvr.h:536-554 | the M.I.P. value is at least 0 and every value read, and is 0 or one of them; a failure is one of the reads |
| DvrWidgets.SumFromBounded | cpp-renderer/glwidgetdvr.h:559-579 | with values in [0, 1] the running sum stays between 0 and the number of samples |
| DvrWidgets.AverageInUnit | cpp-renderer/glwidgetdvr.h:559-587 | the average intensity of values in [0, 1] lies in [0, 1], 0 without samples |
| DvrWidgets.SumOfConstant | cpp-renderer/glwidgetdvr.h:562-579 | along a ray of one constant value the sum adds that value once per sample |
| DvrWidgets.AverageOfConstant | cpp-renderer/glwidgetdvr.h:559-587 | the average of a ray of one constant value is that value |
| DvrWidgets.OverInUnit | cpp-renderer/glwidgetdvr.h:648-650 | one compositing step keeps the colour in the unit cube |
| DvrWidgets.CompositeInUnit | cpp-renderer/glwidgetdvr.h:599-661 | compositing back to front from black, with colours and opacities in [0, 1], gives a colour in the unit cube |
| DvrWidgets.OpaqueFrontHides | cpp-renderer/glwidgetdvr.h:605-654 | a fully opaque front-most sample, composited last, is the pixel's colour whatever lies behind it |
| DvrWidgets.CompositeOutcome | cpp-renderer/glwidgetdvr.h:605-661 | a D.V.R. cast ends in a colour or in the failure of one of its samples |
| DvrWidgets.ProductInUnit | cpp-renderer/glwidgetdvr.h:645 | an opacity in [0, 1] scaled by a factor in [0, 1] stays in [0, 1] |
| DvrWidgets.Interpolate | cpp-renderer/glwidgetdvr.h:390-399 | throws exactly for modes other than 0 and 1; only the nearest lookup can read past the data; a value read lies in [0, 1] when the voxel data does |
| DvrWidgets.NearestStaysInData | cpp-renderer/glwidgetdvr.h:390-392 | from -0.5 upward on every axis the nearest lookup reads inside the data |
| DvrWidgets.ProbesAlong | cpp-renderer/glwidgetdvr.h:479-490 | the j-th value read is the one at the start moved j steps forward, scaled into voxel coordinates; all lie in [0, 1] when the voxel data does |
| DvrWidgets.ColorPixel | cpp-renderer/transfer_function.h:140-162 | the transfer function's assertion fails exactly for values outside [0, 1]; otherwise the colour lies in the unit cube when the table's colours do |
| DvrWidgets.SampleStep | cpp-renderer/glwidgetdvr.h:613-646 | a D.V.R. sample either contributes a colour and opacity or ends the cast with a non-colour outcome |
| DvrWidgets.MagnitudeAtNonNegative | cpp-renderer/glwidgetdvr.h:637-642 | non-negative stored magnitudes give a non-negative magnitude at every ray position, in both lookup modes |
| DvrWidgets.ProgramAttenuationInUnit | cpp-renderer/glwidgetdvr.h:603-645 | the program's 1 - 1/ln(e + m), with ln rising from e on and ln(e) = 1, lies in [0, 1] for every magnitude m >= 0 |
| DvrWidgets.AttenuatedInUnit | cpp-renderer/glwidgetdvr.h:645 | for a magnitude of at least 0 and an attenuation mapping such magnitudes into [0, 1], the attenuated opacity stays in [0, 1] |
| DvrWidgets.SampleStepInUnit | cpp-renderer/glwidgetdvr.h:613-646 | with table colours in the unit cube, a non-negative magnitude and an attenuation in [0, 1] on magnitudes of at least 0, every contribution's colour and opacity lie in the unit range |
| DvrWidgets.StepsAlong | cpp-renderer/glwidgetdvr.h:593-653 | the j-th D.V.R. sample is taken at the exit point moved j steps backward, from the value and gradient magnitude read there |
| DvrWidgets.StepsInUnit | cpp-renderer/glwidgetdvr.h:605-653 | with table colours in the unit cube, non-negative stored magnitudes and that attenuation, every sample along the ray contributes within the unit range |
| DvrWidgets.RenderAlongInUnit | cpp-renderer/glwidgetdvr.h:471-661 | with table colours in the unit cube, non-negative stored magnitudes and an attenuation in [0, 1] on magnitudes of at least 0, every colour a rendering mode returns lies in the unit cube |
| DvrWidgets.FirstHitNeverAsserts | cpp-renderer/glwidgetdvr.h:471-529 | first hit on values in [0, 1] never trips the transfer function's assertion |
| DvrWidgets.MipNeverAsserts | cpp-renderer/glwidgetdvr.h:532-555 | M.I.P. on values in [0, 1] never trips the assertion |
| DvrWidgets.AverageNeverAsserts | cpp-renderer/glwidgetdvr.h:557-587 | average intensity on values in [0, 1] never trips the assertion |
| DvrWidgets.StepsNeverAssert | cpp-renderer/glwidgetdvr.h:605-653 | on voxel data in [0, 1] no D.V.R. sample halts on the assertion |
| DvrWidgets.RenderAlongNeverAsserts | cpp-renderer/glwidgetdvr.h:471-661 | voxel data in [0, 1] never trips the assertion, in any rendering mode |
| DvrWidgets.FirstHitMarch | cpp-renderer/glwidgetdvr.h:471-530 | the first-hit loop gives the colour of the first-hit value over the samples the ray length allows (see FirstHitMeaning) |
| DvrWidgets.MipMarch | cpp-renderer/glwidgetdvr.h:532-555 | the M.I.P. loop gives the colour of the maximum over those samples (see MaxFromMeaning) |
| DvrWidgets.AverageMarch | cpp-renderer/glwidgetdvr.h:557-587 | the average loop gives the colour of the mean over those samples (see AverageInUnit, AverageOfConstant) |
| DvrWidgets.ShadeSample | cpp-renderer/glwidgetdvr.h:607-646 | one D.V.R. loop body up to compositing yields the sample SampleStep describes at that position |
| DvrWidgets.DvrMarch | cpp-renderer/glwidgetdvr.h:589-661 | the D.V.R. loop composites the samples, back to front from the exit point, over black (see CompositeInUnit, OpaqueFrontHides) |
| DvrWidgets.AlongSpanIs | cpp-renderer/glwidgetdvr.h:447-457 | the chosen mode run between the entry and exit points, over the ray length less the jitter, is the colour along the span |
| DvrWidgets.RenderSpan | cpp-renderer/glwidgetdvr.h:471-663 | dispatches to the loop of the chosen rendering mode; any other mode leaves the result undefined |
| DvrWidgets.TraceRay | cpp-renderer/glwidgetdvr.h:431-663 | a ray that misses the box is grey (0.3, 0.3, 0.3); otherwise the chosen mode along its clipped span |
| DvrWidgets.AlongSpanInUnit | cpp-renderer/glwidgetdvr.h:452-661 | every colour along a span lies in the unit cube, under the hypotheses of `RenderAlongInUnit` |
| DvrWidgets.RayPixelInUnit | cpp-renderer/glwidgetdvr.h:431-663 | given table colours in the unit cube, non-negative stored gradient magnitudes (`SnapshotMagnitudesNonNegative`) and an attenuation mapping magnitudes m >= 0 into [0, 1] (`ProgramAttenuationInUnit`), every colour a ray gives lies in the unit cube, the miss grey included |
| DvrWidgets.AlongSpanNeverAsserts | cpp-renderer/glwidgetdvr.h:452-661 | voxel data in [0, 1] never trips the assertion along a span |
| DvrWidgets.RayPixelNeverAsserts | cpp-renderer/glwidgetdvr.h:431-663 | voxel data in [0, 1] never trips the assertion for any ray |
| DvrWidgets.GLWidgetDvr.constructor | cpp-renderer/glwidgetdvr.h:29-56 | renders at 64 x 64 and rotates at 16 x 16, every mode 0, no volume, the dialog's transfer function |
| DvrWidgets.GLWidgetDvr.SetRes | cpp-renderer/glwidgetdvr.h:107-129 | entries 0 to 4 select 64·2^entry pixels a side, others keep the selection; the rendering resolution follows the selection; nothing else changes |
| DvrWidgets.GLWidgetDvr.SetStepSize | cpp-renderer/glwidgetdvr.h:138-141 | sets the step size and nothing else |
| DvrWidgets.GLWidgetDvr.SetResRotating | cpp-renderer/glwidgetdvr.h:150-164 | entries 0 to 3 select 16·2^entry pixels a side while rotating, others keep the selection |
| DvrWidgets.GLWidgetDvr.SnapshotMagnitudesNonNegative | cpp-renderer/Volume.h:354 | once the gradients are computed with an exact square root, every magnitude the renderer reads is non-negative |
| DvrWidgets.GLWidgetDvr.Snapshot | cpp-renderer/glwidgetdvr.h:823 | the volume's voxel values and gradient magnitudes form a well-sized grid |
| DvrWidgets.GLWidgetDvr.InterpolateVoxel | cpp-renderer/glwidgetdvr.h:390-399 | agrees with Interpolate on the volume's data (see its contract) |
| DvrWidgets.GLWidgetDvr.ScaledBox | cpp-renderer/glwidgetdvr.h:441-442 | the box the scaled volume fills has non-negative sides |
| DvrWidgets.GLWidgetDvr.CastRay | cpp-renderer/glwidgetdvr.h:408-665 | gives the pixel of the parallel ray from the pixel's place on the view plane through the scaled volume (see TraceRay); undefined for other projections |

## Left out

- Windowing, OpenGL and Qt drawing, WinForms, signals and slots (`updateGL`, `emit tfChanged`), console output and the `print*` debug members: these are input and output, not logic.
- File access: `loadVolumeDat` is modelled on the bytes of an opened file, so a file that cannot be opened is not modelled.
- `transfer_function.h` `save` and `open`: both are stubs that read and write nothing useful.
- Phong shading (`phongShadeVoxel`, shading mode 1) uses `pow` and `abs` on floats. The model gives it the distinct outcome `Shaded` rather than a colour.
- Perspective projection: `castRay` has no code for it and falls off its end. The model returns `Undefined` for it.
- Floating-point precision, IEEE infinities and NaN: every scalar is an exact real.
- CsTransferFunctions.TransferFunction.SortListOfTfNodes: follows the library sort for up to 16 nodes: compare-and-swap steps for two or three nodes, insertion for four to sixteen. For more than 16 nodes the library partitions or heap-sorts, and neither keeps nodes with equal inputs in a fixed order. The model orders such lists by insertion, so their order among equal inputs is not the program's. `CsTransferFunctions.TransferFunction.AddNode` shares this limit.
- Viewports.Viewport.GetPointsWhereViewportRaysIntersectVolume: requires every component of the projection direction to be non-zero. The program divides by zero there and relies on IEEE infinities.
- Viewports.Viewport.GetRayBoxIntersectionPointsInModelSpace: has the same non-zero requirement, for the same reason.
- CppTransferFunctions.TransferFunction.DiscretizeSamples: where two consecutive sample positions coincide, the program divides by zero. The model takes the earlier sample's value there, clamped like every other value.
- The rotation matrices (`CreateRotationX`, `CreateRotationY`) take the cosine and sine of the accumulated angles as parameters.
- The C# `Volume` members the shown `Data/Volume.cs` lacks (`centerOfX/Y/Z`, `SizeOfLargestDimension`, `GetVoxelClosest`) are parameters of the viewport and renderer members that use them.
- `GetStateDescription` in the C# viewport only formats text.
- CppVolumes.Volume.LoadVolumeDat: models the corrected loader of the first Findings row, not the one as written. As written, the read that runs past the end still stores a voxel, and the load succeeds. `CppVolumes.ReadVoxels` and `CppVolumes.ReadRow` model the same corrected loop. The as-written behaviour is `DatFormat.TruncatedFileLoads`.
- CppVolumes.Volume.LoadVolumeDat: returns false at once on data shorter than the 6-byte header. The program reads the short header anyway, takes sizes from whatever the buffer then holds, and fails at the first voxel unless those sizes give no voxels. That case is not modelled.
- CppVolumes.Volume.LoadVolumeDat: `m_sliceSize` and `m_voxelNum` are C++ `int`s, so a header with width · height · depth of 2^31 or more overflows. The overflow is undefined behaviour. The model's sizes are unbounded integers and do not capture it.
- `Volume.h`: not modelled are
  - the Vector3d-valued `getGradient` and `getGradientTrilinear`, which feed only Phong shading;
  - the copy constructor and `operator=`;
  - `GetHistogram` and `getData`, which are plain getters.

  `getVoxelClosest`, `getVoxelTrilinear` and `getGradientMagnitude*` are stated through the `VolumeSampling` lemmas rather than through their own contracts.
- `Vector3d`: not modelled are `GetInverse` and `invert` (componentwise reciprocal) and the pointer-returning `Get()`.
- `Matrix4d`: not modelled are
  - `createRotation`, `createOrthoPrj`, `createPerspectivePrj` and `GetRotation`, which need trigonometry;
  - the quaternion constructor, `GetRotated` and `rotate`;
  - `GetInverse` and `invert`;
  - `print`.

- Matrices.TransformPoint: answers `None` where the homogeneous coordinate w is 0. The program divides by zero there.
- `GLWidgetDvr`: not modelled are `setVolume` and the other one-line setters (`setTfMode`, `setHitValue`, `setRenderingMode` and so on), and the mouse and wheel handlers.
  - The model requires `stepSize > 0`. The constructor leaves `stepSize` unset, and only `setStepSize` gives it a value.
- DvrWidgets.GLWidgetDvr.CastRay: requires, through `Ready()`, a volume of at least one voxel a side. `loadVolumeDat` accepts a header with a zero size: its loops run zero times and it returns true. `castRay` on such a volume mostly returns the miss grey or takes no step across the flat box. A ray lying in the flat box's plane, though, reaches `getVoxelClosest`, which clamps to size - 1 = -1 and reads outside the voxel array. With every size zero, the scaling factor is 0 and the box sides divide by it. None of this is modelled.
- VolumeSampling.Trilinear: `getVoxelTrilinear` returns a `const float&` to its local `c`, and `getGradientMagnitudeTrilinear` binds a `const double&` to that float local. `castRay` reads through both references after the call returns, which is undefined behaviour. The model takes the interpolated value the code computes. The three members on the next lines share this.
- DvrWidgets.Interpolate: in mode 1 returns the trilinear value that the program reads through a dangling reference (see `VolumeSampling.Trilinear` above).
- DvrWidgets.GLWidgetDvr.InterpolateVoxel: the same dangling reference, through `getVoxelTrilinear`.
- DvrWidgets.MagnitudeAt: in mode 1 the same dangling reference, through `getGradientMagnitudeTrilinear`.
- ColorHsv.ColorFromHsv: `Color.FromArgb` throws `ArgumentException` when a channel lies outside 0..255, for example at a value above 100 percent. The model returns the channels unchecked: `ColorFromHsv(0.0, 0.0, 200.0)` has red 510. `ColorHsv.ChannelBounds` gives the inputs for which every channel lies in 0..255.
- CsRenderers.Grey: `Color.FromArgb` throws when `(int)(v * 255)` lies outside 0..255. The model returns the channel unchecked, for example 510 for v = 2. The contract states that samples in [0, 256/255) stay in range.
- `castRay` frees the exit point when the widget's `selectedRenderingMode` is not D.V.R. It then reads that point in D.V.R. mode when its `renderingMode` argument asks for D.V.R. This use after free is not modelled: the model always reads the exit point.
- With gradient interpolation modes other than 0 and 1, `castRay` reads an uninitialised magnitude. The model gives that the outcome `Undefined`.
- The `rand()` jitter that shortens every ray in `castRay` is the parameter `jitter`.
- DvrWidgets.GLWidgetDvr.CastRay: is stated against a snapshot of the volume's voxel values and gradient magnitudes taken when the ray is cast. The model does not capture concurrent changes to the volume.

## Findings

| source | as written | input that shows it | evidently intended | confidence | as-written member | corrected member |
|---|---|---|---|---|---|---|
| cpp-renderer/Volume.h:177-189 | `eof()` is tested before each two-byte read, so the read that runs past the end still stores a voxel, built from the bytes left in the buffer, and the load succeeds | the 6-byte file 1, 0, 1, 0, 1, 0 (a 1 x 1 x 1 header and no voxel data) loads, and its voxel is the header's depth word 1 | report the premature end of data and return false | not executed | DatFormat.TruncatedFileLoads | DatFormat.EncodeDecode |
| cpp-renderer/transfer_function.h:406-421 | the C++ `%` keeps the sign of a negative nearest integer, so a negative remainder is always below 3 and the result moves toward zero | `roundToNearest5(-3.0)` gives 0, three away, where -5 is two away | the nearest multiple of 5, as for non-negative arguments | not executed | CppTransferFunctions.RoundAsWrittenNegativeCounterexample | CppTransferFunctions.RoundToNearest5IsNearest |
