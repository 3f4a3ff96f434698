# Climbing-grade conversion

A Dafny model of the grade registry of a climbing-log app, found in `types.ts`.
The registry holds two families of grade scales:

- boulder: V-Scale and Font;
- rope: YDS, French and UIAA.

Every scale has 16 labels, easiest first. Position `i` means the same difficulty in every scale of a category.
`convertGrade` shows a recorded grade in the system the user prefers. It works like this:

1. It picks the category's scales: the tag `"Boulder"` selects the boulder scales and every other tag selects the rope scales.
2. It searches those scales in key order with `indexOf` and stops at the first scale that holds the grade.
3. If no scale holds the grade, it returns the grade unchanged.
4. Otherwise it returns the label at the same position in the target scale. If that label is empty, it falls back to the input.

Everything is in module `Types` (`types.dfy`):

- `Category` and `GradeSystem` are datatypes. `SystemCategory` ties each system to its category.
- The five tables are constant sequences. `Scale` selects one and `Systems` gives the search order.
- `IndexOf` is the array `indexOf` the search calls.
- `FirstHit` is the search loop stated as a function.
- `Convert` is the whole lookup stated as a function.
- `ConvertGrade` is the source's loop with its `break`, proved equal to `Convert`.
- The lemmas prove that labels are distinct within a category. From that they prove index alignment, the round trip, identity and miss passthrough.

The category tag is a string parameter, because the source only compares it with `'Boulder'`.
The target system must belong to the category the tag selects. This is a `requires`.
Across categories, the code behaves in two ways:
- If the grade is found, it reads `(maps as any)[toSystem]`, which is `undefined`, and indexing it throws a TypeError.
- If the grade is not found, it returns the grade unchanged before it reaches that read.

The `requires` excludes both cases. The one caller, App.tsx:242, always pairs the tag with a system of the same category.

## Model

| member | source | states |
|---|---|---|
| `Types.Scale` | types.ts:38-48 | every scale has exactly 16 labels, and none is empty |
| `Types.Systems` | types.ts:38-48 | the systems searched for a category are exactly the systems of that category |
| `Types.IndexOf` | types.ts:58 | -1 exactly when the grade is absent; otherwise a position holding the grade with no earlier occurrence |
| `Types.FirstHit` | types.ts:55-60 | -1 exactly when no searched scale holds the grade; otherwise a position below 16 where some searched scale holds it |
| `Types.Convert` | types.ts:50-64 | the result is the input or a label of the target scale; it is a target label exactly when the input is a label of the category |
| `Types.ConvertGrade` | types.ts:50-64 | the loop that breaks at the first scale whose `indexOf` hits returns what `Convert` specifies |
| `Types.ScaleDistinct` | types.ts:40-46 | no label occurs twice within one scale |
| `Types.ScalesDisjoint` | types.ts:40-46 | two different scales of one category share no label |
| `Types.BoulderScalesDisjoint` | types.ts:40-41 | no V-Scale label is a Font label |
| `Types.RopeScalesDisjoint` | types.ts:44-46 | the YDS, French and UIAA scales pairwise share no label |
| `Types.LabelsDistinctHolds` | types.ts:40-46 | in each category, a label determines its system and its position |
| `Types.ScalesAligned` | types.ts:40-46 | an index found in one scale is in range for every scale of the same category |
| `Types.FirstHitOfLabel` | types.ts:55-60 | for a label no other position carries, the first-match search returns that label's position |
| `Types.ConvertAligned` | types.ts:50-63 | the label at position i of one system converts to the label at position i of any system of the same category |
| `Types.ConvertIdentity` | types.ts:56-63 | a grade that already belongs to the target scale is returned unchanged |
| `Types.ConvertRoundTrip` | types.ts:56-63 | converting to another system of the category and back returns the original grade |
| `Types.ConvertMiss` | types.ts:62 | a grade that is in no scale of the category is returned unchanged |
| `Types.ConvertNeverFallsBack` | types.ts:62-63 | a recognised grade converts to the target's label at a position where the grade itself stands, so the empty-label fallback is never taken |
| `Types.BoulderExamples` | types.ts:40-41 | V4 converts to 6B in Font, and 6B converts to V4 in V-Scale |
| `Types.RopeExamples` | types.ts:44-51 | 5.10 converts to 6a+ in French and to VI in UIAA, and VI converts to 5.10 in YDS; the tags "Top Rope" and "Lead" select the rope scales |
| `Types.MissExample` | types.ts:62 | "not-a-grade" converted to Font stays "not-a-grade" |

## Left out

- `Types.Convert`: a target system from the other category is excluded by `requires`. Across categories the code throws a TypeError when the grade is found and returns the grade unchanged when it is not; the model promises neither.
- The `Screen` enum and the `Climb` and `UserStats` interfaces in types.ts declare no behaviour. Only the category tag of `Climb` matters here, and it is the string parameter `fromType`.
- App.tsx is not part of this model. It holds React state and rendering, remote authentication and storage, and timers. Its `displayClimbs` mapping only calls `convertGrade` once per climb.
- Strings are compared as sequences of characters, with no Unicode normalisation. This matches the strict equality that `indexOf` uses.
