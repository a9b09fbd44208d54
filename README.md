# Marketing site interaction logic, modelled in Dafny

This project models the parts of a single-page marketing site that have behaviour beyond static markup, and proves what they promise:

- **`useActiveSection`** (`active_section.dfy`) is the hook that tracks which page section is active. On every scroll it walks an ordered list of section ids and takes the first whose element covers the line `offset` pixels below the viewport top. The interval is half-open and the offset defaults to 100. When no section covers the line and the page is scrolled less than `offset`, it falls back to the first section. `scrollToSection` requests a scroll to the section's page top less 80 pixels.
- **The navigation bar** (`navigation.dfy`):
  - Its own scroll rule: the first nav entry whose section covers the line at 100 pixels wins. Both ends of a section count, and there is no fallback.
  - The "scrolled" flag, set past 10 pixels.
  - Clicks, which request a scroll to the section if it exists and always close the mobile menu.
  - The menu toggle.
  - Lemmas relate this rule to the hook's. They show where the two agree and give a concrete layout where they disagree.
- **The gradient cursor's trail** (`gradient_cursor.dfy`) is a bounded first-in first-out buffer of pointer positions:
  - a pointer move appends a point and drops the oldest when the buffer is over capacity;
  - leaving the document empties it;
  - every frame fades each point by its age and drops the faded ones.
- **The particle field** (`particle_field.dfy`):
  - the pool is sized from the canvas area and a density tier;
  - spawning draws every attribute from `Math.random()` values passed in as inputs;
  - the per-particle frame update covers movement, ageing, pointer pull, fade windows, edge wrap and respawn in place;
  - the per-frame pass over the pool.
- **The implementation section** (`implementation_section.dfy`):
  - the completed-steps list that the step buttons toggle;
  - the headline's total duration, the sum of `parseInt` of each step's `"<n> min"` string;
  - the colour-class lookup, which falls back to blue.
- **The magnetic wrapper** (`magnetic_wrapper.dfy`) pulls an element towards the pointer inside a radius. It rests at (0, 0) outside the radius, after the pointer leaves, and when it is disabled.

`dom.dfy` models the document as a map from element id to the element's viewport-relative `(top, bottom)`. `wrappers.dfy` holds the `Option` type.

How the browser is modelled:

- A missing element is `None`.
- React's `setState` is an immediate assignment.
- `Math.random()` draws and `Date.now()` are parameters.
- Where the code takes `Math.sqrt`, the distance `d` is an input constrained by `d >= 0 && d * d == dx * dx + dy * dy`.
- The per-frame and per-event handlers are modelled one call at a time.

Behaviour of the code worth noting:

- **Wrap.** The particle wrap sends a coordinate below 0 to exactly the far edge, and one beyond the far edge to exactly 0. Positions therefore stay in the closed interval `[0, width]`, and the overshoot is dropped (`WrapExample`).
- **Spawn opacity.** A spawned particle starts with a random opacity below the ceiling. Between the fade windows the opacity keeps its previous value, so it need not ever reach the ceiling (`FadeWindows`).
- **Duplicate id.** The id `start` is carried by two sections of the page (`src/components/sections/ImplementationSection.tsx:184` and `src/components/sections/CTASection.tsx:7`). `getElementById` returns only the first of them, so the layout map gives each id one rect.
- **`solution`.** The nav entry `solution` names no section, so it is never highlighted (`NavNeverSolution`).

## Model

| member | source | states |
|---|---|---|
| Dom.GetElementById | src/hooks/useActiveSection.ts:19 | an element is found exactly when the id is non-empty and on the page, and it is that id's rect |
| ActiveSection.Hit | src/hooks/useActiveSection.ts:21-25 | the page-coordinate test `scrollY + offset` in `[top + scrollY, bottom + scrollY)` is equivalent to the viewport test `top <= offset < bottom`, because the scroll position cancels out |
| ActiveSection.HitsId | src/hooks/useActiveSection.ts:19-25 | the id names an element on the page and that element passes the hook's test |
| ActiveSection.FirstHit | src/hooks/useActiveSection.ts:16-30 | what the loop leaves in `currentSection`: the first listed id that hits, or `""`; `FirstHitInIds`, `FirstHitIsFirst`, `FirstHitEmptyIffNoHit` and `FirstHitHits` characterise it |
| ActiveSection.CurrentSection | src/hooks/useActiveSection.ts:16-37 | the section the hook makes active: the loop's result, or the first id (`""` for none) when nothing hits and `scrollY < offset`; `CurrentSectionFirstMatch`, `CurrentSectionNoMatch` and `CurrentSectionDisjoint` characterise it |
| ActiveSection.ScanSections | src/hooks/useActiveSection.ts:13-35 | the loop with `break` returns the first id whose element passes the test, with the near-top fallback applied; the result is `""` or one of the ids |
| ActiveSection.FirstHitInIds | src/hooks/useActiveSection.ts:16-30 | the loop's result is `""` or one of the listed ids |
| ActiveSection.CurrentSectionInIds | src/hooks/useActiveSection.ts:16-35 | the active section is `""` or one of the listed ids |
| ActiveSection.FirstHitIsFirst | src/hooks/useActiveSection.ts:18-29 | if id `k` hits and no earlier id does, the loop returns id `k`, whatever follows it; missing elements are skipped |
| ActiveSection.FirstHitEmptyIffNoHit | src/hooks/useActiveSection.ts:18-30 | the loop finds nothing if and only if no listed id has an element that passes the test |
| ActiveSection.FirstHitHits | src/hooks/useActiveSection.ts:25-27 | a non-empty result names an element that passes the test |
| ActiveSection.CurrentSectionFirstMatch | src/hooks/useActiveSection.ts:18-35 | a hit beats the fallback: the first id that hits is active |
| ActiveSection.CurrentSectionNoMatch | src/hooks/useActiveSection.ts:32-35 | with no hit, the first id is active while `scrollY < offset` (`""` for an empty list), and nothing is active once `scrollY >= offset` |
| ActiveSection.CurrentSectionDisjoint | src/hooks/useActiveSection.ts:18-29 | when sections occupy disjoint intervals, a section that holds the line is active wherever it is listed |
| ActiveSection.ScrollToSection | src/hooks/useActiveSection.ts:51-61 | no scroll is requested if and only if the element is missing; otherwise the requested scroll position is the section's page top (`top + pageYOffset`) less 80 pixels |
| ActiveSection.Tracker.constructor | src/hooks/useActiveSection.ts:8-9 | the offset defaults to 100 when not given; the active section starts as `""` |
| ActiveSection.Tracker.HandleScroll | src/hooks/useActiveSection.ts:12-37 | the new active section is the first hit, with the near-top fallback |
| Navigation.SectionIds | src/components/layout/Navigation.tsx:35 | one id per href, in nav order, and each `#`-prefixed href is `#` followed by its id |
| Navigation.Substring1 | src/components/layout/Navigation.tsx:35 | `href.substring(1)`: the href without its first character |
| Navigation.NavHit | src/components/layout/Navigation.tsx:41-42 | the bar's test: the section's top is at or above the line 100 pixels down and its bottom at or below it, both ends included |
| Navigation.NavHitsId | src/components/layout/Navigation.tsx:39-42 | the id names an element and that element passes the bar's test |
| Navigation.NavActive | src/components/layout/Navigation.tsx:36-49 | the section the bar highlights: the first nav id that passes the test, or `""`; `NavActiveInIds`, `NavActiveIsFirst`, `NavActiveEmptyIffNoHit` and `NavActiveHitsItself` characterise it |
| Navigation.QuerySelector | src/components/layout/Navigation.tsx:60 | `document.querySelector(href)` for a `#id` href: the element carrying that id, if any |
| Navigation.FindActiveSection | src/components/layout/Navigation.tsx:36-47 | the loop with `break` returns the first nav id whose section holds the line at 100, both ends included, or `""`; the result is `""` or one of the ids |
| Navigation.NavActiveInIds | src/components/layout/Navigation.tsx:35-49 | the highlighted section is `""` or one of the nav ids |
| Navigation.NavActiveIsFirst | src/components/layout/Navigation.tsx:42-45 | the first id in nav order whose section holds the line is highlighted, so of two sections touching at the line the earlier wins |
| Navigation.NavActiveEmptyIffNoHit | src/components/layout/Navigation.tsx:36-49 | nothing is highlighted if and only if no section holds the line; there is no fallback |
| Navigation.NavActiveHitsItself | src/components/layout/Navigation.tsx:42-44 | a highlighted id names a section that holds the line |
| Navigation.NavNeverSolution | src/components/layout/Navigation.tsx:20-28 | on a page whose ids are the site's section ids, `solution` is never highlighted |
| Navigation.NavMatchesFirstHit | src/components/layout/Navigation.tsx:38-47 | when no section ends exactly on the line, the bar's scan and the hook's scan with offset 100 return the same id |
| Navigation.NavAgreesWithHook | src/components/layout/Navigation.tsx:38-47 | once scrolled at least 100 pixels, with no section ending on the line, the bar highlights the hook's active section |
| Navigation.TouchingSectionsDisagree | src/components/layout/Navigation.tsx:42 | for two sections touching at 100 the bar picks the earlier one and the hook the later one |
| Navigation.Bar.constructor | src/components/layout/Navigation.tsx:16-18 | nothing is highlighted, the bar is not scrolled and the menu is closed |
| Navigation.Bar.HandleScroll | src/components/layout/Navigation.tsx:31-50 | scrolled if and only if `scrollY > 10`; the highlight is the bar's first-match rule over the nav ids; the menu is untouched |
| Navigation.Bar.HandleClick | src/components/layout/Navigation.tsx:58-65 | a scroll is requested if and only if the target exists, and the offset `scrollIntoView` aims for is the target's page top; the menu is always closed afterwards |
| Navigation.Bar.ToggleMobileMenu | src/components/layout/Navigation.tsx:123 | the menu flag flips and nothing else changes |
| GradientCursor.NewPoint | src/components/core/GradientCursor.tsx:64-71 | a recorded point is fully opaque, stamped `now`, at the pointer, and 1.5 times the size over an interactive target |
| GradientCursor.Push | src/components/core/GradientCursor.tsx:65-76 | the new point is last; at most the single oldest point is dropped, and only when over the limit; a trail within the limit stays within it |
| GradientCursor.Faded | src/components/core/GradientCursor.tsx:100-104 | opacity is `max(0, 1 - age/300)`, positive exactly for ages under 300 ms; the new size, scaled by the old opacity, keeps between half and all of the old size |
| GradientCursor.FadeAll | src/components/core/GradientCursor.tsx:99-104 | the `map` step fades every point and keeps the order |
| GradientCursor.Visible | src/components/core/GradientCursor.tsx:105 | the `filter` step: the points with opacity above 0.01, in order; `VisibleIsFilter` characterises it |
| GradientCursor.Decay | src/components/core/GradientCursor.tsx:99-105 | one frame of the trail: fade every point, then keep the visible ones; `DecayIsOrderedFilter` and `SurvivesIffRecent` characterise it |
| GradientCursor.VisibleIsFilter | src/components/core/GradientCursor.tsx:105 | the filter keeps exactly the points with opacity above 0.01, as an ordered subsequence |
| GradientCursor.DecayIsOrderedFilter | src/components/core/GradientCursor.tsx:99-105 | a frame never adds points and keeps the survivors in order; a point survives if and only if its faded opacity is above 0.01 |
| GradientCursor.SurvivesIffRecent | src/components/core/GradientCursor.tsx:97-105 | a point survives a frame if and only if it is younger than 297 ms |
| GradientCursor.DecayPreservesWellFormed | src/components/core/GradientCursor.tsx:99-105 | opacities in [0, 1], non-negative sizes and past timestamps survive a frame, and no point grows |
| GradientCursor.PushPreservesWellFormed | src/components/core/GradientCursor.tsx:65-76 | a pointer move keeps the trail well formed |
| GradientCursor.Cursor.constructor | src/components/core/GradientCursor.tsx:25-38 | the trail starts empty and the cursor hidden and not hovering; a left-out `size`, `trailLength` or `enabled` prop takes its default 20, 15 or true |
| GradientCursor.Cursor.HandleMouseMove | src/components/core/GradientCursor.tsx:51-83 | when enabled, the trail is `Push` of the new point, the cursor is visible, and hover and position follow the event; disabled, nothing changes; the capacity bound holds |
| GradientCursor.Cursor.HandleMouseEnter | src/components/core/GradientCursor.tsx:85-87 | an enabled cursor becomes visible; nothing else changes |
| GradientCursor.Cursor.HandleMouseLeave | src/components/core/GradientCursor.tsx:89-92 | an enabled cursor is hidden and its trail emptied; hover and positions are kept |
| GradientCursor.Cursor.Animate | src/components/core/GradientCursor.tsx:95-105 | the trail becomes its decay at time `now` and nothing else changes; the capacity bound holds |
| ParticleField.SpeedFactor | src/components/core/ParticleField.tsx:49-53 | every speed multiplier is positive |
| ParticleField.SizeRangeOf | src/components/core/ParticleField.tsx:54-58 | every size tier's range has `0 < min < max` |
| ParticleField.DensityFactor | src/components/core/ParticleField.tsx:44-48 | particles per 15000 square pixels: 0.5 at low, 1 at medium and 1.5 at high density |
| ParticleField.ParticleCount | src/components/core/ParticleField.tsx:82-84 | the pool size `floor(width * height / 15000 * factor)`, never negative; `ParticleCountExamples` evaluates it |
| ParticleField.ParticleCountExamples | src/components/core/ParticleField.tsx:82-84 | an 800 x 600 canvas holds 16, 32 or 48 particles at low, medium or high density |
| ParticleField.ColorIndex | src/components/core/ParticleField.tsx:73 | the palette index lies in `[0, n)` for a non-empty palette |
| ParticleField.PickColor | src/components/core/ParticleField.tsx:73 | a colour is picked if and only if the palette is non-empty, and it comes from the palette |
| ParticleField.Scaled | src/components/core/ParticleField.tsx:68-69 | a draw times a non-negative extent lies in `[0, extent]`, and below a positive extent |
| ParticleField.Centered | src/components/core/ParticleField.tsx:70-71 | `(r - 0.5) * m` lies in `[-0.5m, 0.5m)` for a positive multiplier |
| ParticleField.SizeDraw | src/components/core/ParticleField.tsx:63-64 | a drawn radius lies in its tier's `[min, max)` |
| ParticleField.SizeInTier | src/components/core/ParticleField.tsx:64 | `r * (max - min) + min` lies in `[min, max)` for every tier |
| ParticleField.CreateParticle | src/components/core/ParticleField.tsx:62-77 | a spawned particle is on the canvas at age 0 with lifetime in [100, 300), velocity in `[-0.5m, 0.5m)`, a radius in its tier, a palette colour, and opacity in `[0, ceiling)` |
| ParticleField.Wrap | src/components/core/ParticleField.tsx:122-125 | the result lies in `[0, extent]`; in-range values are kept, values below 0 go to the far edge and values beyond it to 0 |
| ParticleField.FadeOpacity | src/components/core/ParticleField.tsx:111-119 | a linear rise to the ceiling over the first tenth of life, a linear fall over the last tenth, the previous opacity in between; `FadeOpacityBounds` and `FadeWindows` characterise it |
| ParticleField.Pull | src/components/core/ParticleField.tsx:104-107 | the pull on one velocity component: the offset times `(100 - d) / 100` times 0.001; `PullBounds` characterises it |
| ParticleField.Moved | src/components/core/ParticleField.tsx:94-125 | a particle that lives on after a frame: moved by its velocity, one frame older, pulled from its moved position, faded and wrapped |
| ParticleField.Updated | src/components/core/ParticleField.tsx:93-131 | a particle after a frame: a fresh spawn once its life reaches `maxLife`, otherwise `Moved`; `UpdatedPreservesValid`, `UpdatedBounds` and `VelocityOnlyPulled` characterise it |
| ParticleField.ValidParticle | src/components/core/ParticleField.tsx:62-77 | the pool invariant: on the canvas, lifetime in `[100, 300)` and not yet reached, radius in its tier, colour from the palette, opacity within the ceiling |
| ParticleField.FadeOpacityBounds | src/components/core/ParticleField.tsx:111-119 | before the end of life, an opacity in `[0, ceiling]` stays there |
| ParticleField.FadeWindows | src/components/core/ParticleField.tsx:111-119 | opacity rises strictly through the first tenth of life, falls strictly through the last tenth, is 0 at age 0 and at the lifetime, and keeps its previous value in between |
| ParticleField.UpdateParticle | src/components/core/ParticleField.tsx:93-131 | the statement-by-statement update equals the declarative frame `Updated` (move, age, pull, fade, wrap, respawn) |
| ParticleField.SpawnedIsValid | src/components/core/ParticleField.tsx:62-77 | a spawned particle satisfies the pool invariant |
| ParticleField.UpdatedPreservesValid | src/components/core/ParticleField.tsx:93-131 | a frame keeps every particle on the canvas (closed bounds), younger than its lifetime, and with lifetime, radius, colour and opacity in range |
| ParticleField.UpdatedBounds | src/components/core/ParticleField.tsx:122-130 | for any particle, after a frame `0 <= x <= width`, `0 <= y <= height` and `life < maxLife`; a particle that reaches its lifetime is respawned at age 0, otherwise it ages by one |
| ParticleField.VelocityOnlyPulled | src/components/core/ParticleField.tsx:99-109 | velocity changes only when interactive and within 100 pixels, and then each component moves towards the pointer by at most 0.001 of the offset |
| ParticleField.PullBounds | src/components/core/ParticleField.tsx:104-108 | the pull has the offset's sign and at most 0.001 of its size |
| ParticleField.WrapExample | src/components/core/ParticleField.tsx:122-123 | a particle at x = 799 moving 5 right on an 800-wide canvas lands at exactly 0 |
| ParticleField.Field.constructor | src/components/core/ParticleField.tsx:37-40 | an empty pool and a pointer at (0, 0) |
| ParticleField.Field.InitParticles | src/components/core/ParticleField.tsx:81-90 | the pool holds exactly `floor(width * height / 15000 * density)` particles, particle `i` spawned from draw `i`, all valid |
| ParticleField.Field.HandleResize | src/components/core/ParticleField.tsx:211-222 | the canvas takes the container's size and the pool is rebuilt for it; the pointer is kept |
| ParticleField.Field.HandleMouseMove | src/components/core/ParticleField.tsx:199-208 | an interactive field records the pointer in canvas coordinates; otherwise nothing changes |
| ParticleField.Field.Animate | src/components/core/ParticleField.tsx:166-170 | the pool keeps its length, particle `i` becomes its frame update in place, and every particle stays valid |
| ImplementationSection.Without | src/components/sections/ImplementationSection.tsx:161 | the filtered list lacks the index and keeps exactly the other members |
| ImplementationSection.Toggle | src/components/sections/ImplementationSection.tsx:159-165 | the new completed-steps list: the list without the index if listed, otherwise the list with it appended; the `Toggle...` lemmas characterise it |
| ImplementationSection.ToggleFlipsMembership | src/components/sections/ImplementationSection.tsx:159-165 | toggling flips the membership of the toggled index and of no other |
| ImplementationSection.ToggleAbsentAppends | src/components/sections/ImplementationSection.tsx:163 | an absent index is appended at the end, after the unchanged list |
| ImplementationSection.WithoutRemovesAll | src/components/sections/ImplementationSection.tsx:161 | the filter removes every occurrence of the index and nothing else, as multisets |
| ImplementationSection.ToggleRemovesAll | src/components/sections/ImplementationSection.tsx:160-161 | toggling a present index removes all its occurrences and nothing else |
| ImplementationSection.ToggleKeepsOthers | src/components/sections/ImplementationSection.tsx:159-165 | with the toggled index taken out, the list is the same before and after, order included |
| ImplementationSection.ToggleKeepsDistinct | src/components/sections/ImplementationSection.tsx:159-165 | a list without duplicates stays without duplicates |
| ImplementationSection.ToggleTwiceRestores | src/components/sections/ImplementationSection.tsx:161-163 | toggling an absent index twice gives back the original list |
| ImplementationSection.FirstToken | src/components/sections/ImplementationSection.tsx:169 | `split(' ')[0]`: everything before the first space; `FirstTokenIsPrefix` characterises it |
| ImplementationSection.TrimStart | src/components/sections/ImplementationSection.tsx:169 | the white space `parseInt` skips before the number; `TrimStartIsSuffix` characterises it |
| ImplementationSection.DigitValue | src/components/sections/ImplementationSection.tsx:169 | a character's value as a digit in base 10 or 16, below the base, or none |
| ImplementationSection.DigitRun | src/components/sections/ImplementationSection.tsx:169 | how many leading characters `parseInt` reads as digits; `DigitRunIsRun` characterises it |
| ImplementationSection.ParseInt | src/components/sections/ImplementationSection.tsx:169 | `parseInt` without a radix: skip white space, take an optional sign and an optional `0x`, read the leading digits, `NaN` (`None`) when there are none; `ParseIntDecimal` characterises it |
| ImplementationSection.ParseDigits | src/components/sections/ImplementationSection.tsx:169 | the value of the leading digits, `NaN` when there are none |
| ImplementationSection.Minutes | src/components/sections/ImplementationSection.tsx:169 | one step's minutes, `parseInt(duration.split(' ')[0])`; `MinutesOfDuration` characterises it |
| ImplementationSection.AddMinutes | src/components/sections/ImplementationSection.tsx:170 | `total + minutes`, where `NaN` on either side gives `NaN` |
| ImplementationSection.TotalDuration | src/components/sections/ImplementationSection.tsx:168-171 | the `reduce` from 0 over the steps' minutes, left to right; the `TotalDuration...` lemmas characterise it |
| ImplementationSection.FirstTokenIsPrefix | src/components/sections/ImplementationSection.tsx:169 | `split(' ')[0]` is the longest prefix without a space |
| ImplementationSection.TrimStartIsSuffix | src/components/sections/ImplementationSection.tsx:169 | `parseInt` skips a prefix of white space and stops at the first other character |
| ImplementationSection.DigitRunIsRun | src/components/sections/ImplementationSection.tsx:169 | the digits `parseInt` reads are all digits and stop at the first non-digit |
| ImplementationSection.DecimalStringValue | src/components/sections/ImplementationSection.tsx:169 | the digits of a decimal numeral denote the number it was written from |
| ImplementationSection.ParseIntDecimal | src/components/sections/ImplementationSection.tsx:169 | `parseInt` reads back any decimal numeral followed by text that is not a digit or an `x` |
| ImplementationSection.MinutesOfDuration | src/components/sections/ImplementationSection.tsx:169 | a duration written `"<n> min"` is worth `n` minutes |
| ImplementationSection.TotalDurationOfOneDigitSteps | src/components/sections/ImplementationSection.tsx:168-171 | steps whose durations are `"<digit> min"` total the sum of those digits, never `NaN` |
| ImplementationSection.TotalDurationNaN | src/components/sections/ImplementationSection.tsx:168-171 | one duration without a leading number makes the total `NaN` |
| ImplementationSection.TotalDurationOfSteps | src/components/sections/ImplementationSection.tsx:168-171 | the five steps' durations, 2, 5, 3, 3 and 2 minutes, total 15 |
| ImplementationSection.ColorRow | src/components/sections/ImplementationSection.tsx:174-179 | the table's row for blue, green, orange or purple, and none for any other colour |
| ImplementationSection.ColorClasses | src/components/sections/ImplementationSection.tsx:180 | the row's class for the variant, falling back to blue's when the row is missing or the class empty; `ColorClassesLookup` characterises it |
| ImplementationSection.RowFollowsPattern | src/components/sections/ImplementationSection.tsx:174-179 | every row of the table has non-empty `bg-`, `text-` and `border-` classes naming its own colour |
| ImplementationSection.ColorClassesLookup | src/components/sections/ImplementationSection.tsx:173-181 | a colour in the table gets its own class; any other string gets blue's |
| MagneticWrapper.Center | src/components/core/MagneticWrapper.tsx:29-31 | the centre is equidistant from both edges on each axis |
| MagneticWrapper.Force | src/components/core/MagneticWrapper.tsx:38 | the pull's strength `(distance - d) / distance`; `ForceInUnit` and `ForceDecreasing` characterise it |
| MagneticWrapper.Offset | src/components/core/MagneticWrapper.tsx:37-45 | the position a pointer move sets: the delta scaled by strength and force inside the radius, (0, 0) outside; the `Offset...` lemmas characterise it |
| MagneticWrapper.OffsetOutside | src/components/core/MagneticWrapper.tsx:37-45 | at or beyond the radius the offset is (0, 0) |
| MagneticWrapper.OffsetInside | src/components/core/MagneticWrapper.tsx:37-42 | inside the radius each component times the radius is `delta * strength * (distance - d)` |
| MagneticWrapper.ForceInUnit | src/components/core/MagneticWrapper.tsx:37-38 | inside the radius the force lies in (0, 1] and is 1 only at the centre |
| MagneticWrapper.ForceDecreasing | src/components/core/MagneticWrapper.tsx:38 | the force weakens strictly with distance from the centre |
| MagneticWrapper.OffsetTowardsPointer | src/components/core/MagneticWrapper.tsx:38-41 | for `strength >= 0`, each component has its delta's sign and at most `strength` times its size |
| MagneticWrapper.OffsetStrict | src/components/core/MagneticWrapper.tsx:38-41 | for `strength > 0`, inside the radius a non-zero delta gives a non-zero pull in its direction |
| MagneticWrapper.ComponentWithinDistance | src/components/core/MagneticWrapper.tsx:35 | each component of the pointer's offset is at most the distance `Math.sqrt` returns |
| MagneticWrapper.OffsetBounded | src/components/core/MagneticWrapper.tsx:33-45 | for non-negative strength and radius, each component stays within `strength * distance` |
| MagneticWrapper.Initial | src/components/core/MagneticWrapper.tsx:12-20 | the wrapper starts at (0, 0); a left-out `strength`, `distance` or `disabled` prop takes its default 0.3, 100 or false |
| MagneticWrapper.HandleMouseMove | src/components/core/MagneticWrapper.tsx:22-46 | with no listener installed (disabled or not mounted), nothing changes; otherwise only the position changes, to the offset of the pointer from the box's centre |
| MagneticWrapper.HandleMouseLeave | src/components/core/MagneticWrapper.tsx:48-50 | a listening wrapper returns to (0, 0); otherwise nothing changes |
| MagneticWrapper.Step | src/components/core/MagneticWrapper.tsx:28-50 | one event: a pointer move or the pointer leaving the element |
| MagneticWrapper.Run | src/components/core/MagneticWrapper.tsx:28-50 | the wrapper after a sequence of events, first event first; `SilentStaysAtRest` and `RunStaysNear` characterise it |
| MagneticWrapper.SilentStaysAtRest | src/components/core/MagneticWrapper.tsx:22-26 | a disabled or unmounted wrapper stays at (0, 0) after any sequence of events |
| MagneticWrapper.StepStaysNear | src/components/core/MagneticWrapper.tsx:28-50 | one event keeps the position within `strength * distance` of rest |
| MagneticWrapper.RunStaysNear | src/components/core/MagneticWrapper.tsx:28-50 | any sequence of events keeps the position within `strength * distance` of rest |

## Left out

- Rendering is not modelled: the canvas drawing, the connection lines between particles, the cursor's trail and blob markup, and every animation prop. These are host rendering APIs with no state that the model's properties depend on.
- Listener registration and removal, `requestAnimationFrame` and effect re-runs are not modelled; each handler is modelled as one call, and React's batched `setState` as an immediate assignment.
- `Math.random()`, `Date.now()`, `Math.sqrt` and `getBoundingClientRect()` are inputs rather than computations. The square root is constrained by `d >= 0 && d * d == dx * dx + dy * dy`.
- All arithmetic is on exact reals and unbounded integers. IEEE-754 rounding, and the `NaN` or `Infinity` that a zero lifetime would produce, are not modelled.
- ParticleField.UpdateParticle: requires `maxLife > 0`, which every spawned particle has (at least 100). It works on a particle value that the pool pass writes back in place, so aliasing of particle objects is not modelled.
- ParticleField.Field.Animate: requires the caller's pointer distances to satisfy the square-root constraint. A frame without a canvas or drawing context is modelled as one that changes nothing.
- ParticleField.Field.InitParticles: takes at least as many spawn draws as particles it creates, one per particle.
- ImplementationSection.TrimStart: `parseInt` also skips Unicode space separators and line or paragraph separators. The model skips only the ASCII white space, no-break space and byte-order mark, so `ImplementationSection.ParseInt` reads `NaN` where `parseInt` would skip such a character, and `ImplementationSection.TrimStartIsSuffix` characterises the narrower set.
- `parseInt`'s handling of a leading `0x` is modelled, but its other quirks (`Infinity`, numerals longer than 2^53) are not. The step durations never reach them.
- ImplementationSection: the active-step selector and the `n/5 steps completed` counter are display state and are not modelled.
- ImplementationSection.TotalDurationOfSteps: proves the total only for these five durations, through the general one-digit lemma. Durations of two or more digits are covered by `MinutesOfDuration` one step at a time.
- `window.scrollTo` and `scrollIntoView` clamp the requested position to the page's scroll range; the model returns the requested position and does not model the clamping.
- Navigation: the progress bar's scroll ratio is a float expression of window geometry and is not modelled.
- GradientCursor: the `!isVisible` guard is not modelled. The model always sets the cursor visible on a move, and the outcome equals the guarded update. The cursor's spring-smoothed position is not modelled.
- MagneticWrapper: the spring transition that animates towards the position is not modelled, only the target position.
