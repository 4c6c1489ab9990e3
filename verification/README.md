# RunningBot core, modelled in Dafny

RunningBot draws a walking humanoid figure. Every body part is the same
sphere, placed by its own object transform. The program has three small
pieces of logic. This project models them and proves properties of them.

1. **The joint oscillator** `calculateTimeAngle(anglePerRev, t)`
   (`oscillator.dfy`, module `Oscillator`). It turns elapsed time into an
   angle. It is a triangle wave between 0 and the period, with a wavelength
   of two periods. The display routine uses it to drive the joints
   (`joints.dfy`, module `Joints`):
   - the head turn, right arm and right thigh use `45 - a`;
   - the left arm and left thigh use `a - 45`;
   - the knees use `45 - calculateTimeAngle(45, ·)`;
   - the time fed in is `timeSinceStart / frameSpeed`.
2. **Hierarchical model-view composition** (`scene.dfy`, module `Scene`).
   `Entity::draw` sets the root's model-view to `inv(eye) * object` and
   every other part's model-view to `parent.modelView * object`.
   `drawBodyParts` creates and draws each part at once, so a part's parent
   has always been drawn before it. The scene is an arena of entities in
   creation order, each holding the index of its parent. Transforms
   (`transform.dfy`, module `Transform`) are abstract: a transform is the
   word of its factors, the product is concatenation, and the inverse
   reverses the word and inverts each factor. The fixed 26-part body that
   the display routine builds is in `body.dfy` (module `Body`).
3. **The keyboard handler** `keyboard` (`keyboard.dfy`, module `Keyboard`).
   It is a pure transition `Step(settings, key)` on the settings that
   persist between frames: pose, colour, light and `frameSpeed`.

The main results:
- For a positive period the oscillator stays in `[0, period)`. It is 0 at
  every whole multiple of the period. It repeats after two periods. Half a
  wave later it is mirrored, except at whole multiples of the period.
- The head and right-limb swings lie in `(-45, 45]`. The left-limb swings
  are their negations, so they lie in `[-45, 45)`. The knee bend lies in
  `(0, 45]`.
- Every part's model-view is `inv(eye)` times the object transforms along
  the chain from the trunk to the part, trunk first. `Scene.DrawAll` models
  the sequence of `drawBodyParts` calls in creation order, and it computes
  exactly that.
- In the body layout the trunk is the only root, every parent comes before
  its child, and the deepest chain is trunk, arm, elbow, finger (depth 3).
- Every key press keeps `frameSpeed > 0` and keeps each colour offset in
  `[0, 1.02]`. Each key changes only its own group of settings.

Notes on what the code does:
- The comment on `calculateTimeAngle` (main.cpp:139-142) says the rotation
  cycles continuously rather than switching the offset angle suddenly. The
  falling branch computes `ceil(x) - x`, which is 0 when `x` is a whole
  number. So at each odd multiple of the period the angle is 0 for that
  instant, although it is close to the full period just before and just
  after. `Oscillator.OddMultipleDip` states this, and
  `Oscillator.EvenMultipleContinuous` shows that even multiples are
  continuous. This is recorded under "## Findings", together with the
  continuous wave `Oscillator.ContinuousTimeAngle`.
- The code does not check the sign of the period. `TimeAngle` only
  excludes a zero period, because that one makes the code divide by zero.
  For a negative period the result lies in `(period, 0]`.
- The left-limb swings are `a - 45` with `a` in `[0, 90)`, so they lie in
  `[-45, 45)`, while the head and right-limb swings lie in `(-45, 45]`.
- The C++ `%` truncates toward zero and Dafny's `%` is Euclidean. The test
  `revolution % 2 == 0` still picks the same branch in both, negative
  revolutions included.

## Model

| member | source | states |
|---|---|---|
| Oscillator.Ceil | RunningBot/RunningBot/main.cpp:154 | the result is the least whole number not below its argument |
| Oscillator.TimeAngle | RunningBot/RunningBot/main.cpp:147-156 | for a positive period the angle lies in [0, period); for a negative one in (period, 0]; only a zero period, which the code divides by, is excluded |
| Oscillator.TimeAngleOnCycle | RunningBot/RunningBot/main.cpp:148-154 | a floor-free description of the wave: in cycle n (n periods before t) the angle is the time spent in the cycle when n is even; when n is odd it is the time left in the cycle, or 0 exactly at the cycle start |
| Oscillator.CycleIsFloor | RunningBot/RunningBot/main.cpp:148-150 | the whole number of periods before t is the floor of t / period, and the quotient is whole exactly when t is that multiple |
| Oscillator.ZeroAtMultiples | RunningBot/RunningBot/main.cpp:150-154 | the angle is 0 at every whole multiple of the period, even or odd |
| Oscillator.StartsAtZero | RunningBot/RunningBot/main.cpp:147-156 | the angle at time 0 is 0 |
| Oscillator.ArmPeriodSamples | RunningBot/RunningBot/main.cpp:147-156 | with period 90: time 0 gives 0, 45 gives 45, 90 gives 0, 135 gives 45 |
| Oscillator.Periodic | RunningBot/RunningBot/main.cpp:148-154 | shifting time by two periods leaves the angle unchanged |
| Oscillator.HalfWaveMirror | RunningBot/RunningBot/main.cpp:151-154 | away from whole multiples of the period, the angle one period later is the period minus the angle now |
| Oscillator.OddMultipleDip | RunningBot/RunningBot/main.cpp:153-154 | at an odd multiple the angle is 0, while a small distance e before or after it is period - e |
| Oscillator.ContinuousTimeAngle | RunningBot/RunningBot/main.cpp:139-156 | the continuous wave the comment describes: for a positive period it ranges over [0, period], for a negative one over [period, 0] |
| Oscillator.ContinuousOnCycle | RunningBot/RunningBot/main.cpp:139-156 | the continuous wave is the time spent in an even cycle and the time left in an odd one, at the cycle start included |
| Oscillator.DiffersOnlyAtOddMultiples | RunningBot/RunningBot/main.cpp:139-156 | the program's wave and the continuous one agree everywhere except at the odd multiples of the period |
| Oscillator.OddMultipleContinuous | RunningBot/RunningBot/main.cpp:139-156 | the continuous wave reaches the full period at an odd multiple and is period - e at distance e on either side |
| Oscillator.MirrorOnCycle | RunningBot/RunningBot/main.cpp:139-156 | in every cycle, the continuous wave one period later is the period minus the angle now |
| Oscillator.ContinuousHalfWaveMirror | RunningBot/RunningBot/main.cpp:139-156 | the continuous wave is mirrored half a wave later at every time, whole multiples included |
| Oscillator.EvenMultipleContinuous | RunningBot/RunningBot/main.cpp:151-152 | at an even multiple the angle is 0, and e before or after it is e, so the wave is continuous there |
| Joints.Phase | RunningBot/RunningBot/main.cpp:201 | the oscillator time times frameSpeed gives back the elapsed milliseconds |
| Joints.JointAngle | RunningBot/RunningBot/main.cpp:199-333 | the head and right-limb swings lie in (-45, 45], the left-limb swings in [-45, 45), and the knee bend in (0, 45] |
| Joints.LimbsMirror | RunningBot/RunningBot/main.cpp:199-320 | the left arm and left thigh swings are the negations of the right ones, and the head turns in step with the right arm |
| Joints.GaitAlternates | RunningBot/RunningBot/main.cpp:217-320 | away from multiples of 90, each left limb does what the right limb does one period (90) later |
| Joints.JointsRepeat | RunningBot/RunningBot/main.cpp:199-333 | every joint angle repeats after 180 time units |
| Joints.ArmGlitchAt900ms | RunningBot/RunningBot/main.cpp:199-220 | with frameSpeed 10, 900 ms is oscillator time 90, where the right arm is at +45 while one time unit before and after it is at -44 |
| Joints.ContinuousGaitAlternates | RunningBot/RunningBot/main.cpp:217-320 | with the continuous wave the left limb does what the right limb does 90 time units later, at every time |
| Joints.StartPose | RunningBot/RunningBot/main.cpp:199-333 | at elapsed time 0 the head and right limbs are at 45, the left limbs at -45, and the knees at 45, for any nonzero frameSpeed |
| Transform.Inv | RunningBot/RunningBot/main.cpp:97 | the inverse lists the factors in reverse order, each inverted |
| Transform.InvInvolutive | RunningBot/RunningBot/main.cpp:97 | inverting a transform twice gives it back |
| Transform.InvOfProduct | RunningBot/RunningBot/main.cpp:97 | the inverse of a product is the product of the inverses in reverse order, inv(a * b) = inv(b) * inv(a) |
| Scene.Path | RunningBot/RunningBot/main.cpp:93-99 | the chain from a root to part i, root first, ends at i, starts at a part without a parent, and links each part to its parent |
| Scene.ModelViewComposesPath | RunningBot/RunningBot/main.cpp:95-99 | the model-view that the draw rule gives part i equals inv(eye) times the object transforms along its chain, root first |
| Scene.PathPrefix | RunningBot/RunningBot/main.cpp:93-99 | the chain of an ancestor on i's chain is the matching prefix of i's chain |
| Scene.AncestorCarriesDescendants | RunningBot/RunningBot/main.cpp:95-99 | a part's model-view is any ancestor's model-view times the object transforms below that ancestor, so a limb's transform carries everything attached to it |
| Scene.ComposeAppend | RunningBot/RunningBot/main.cpp:99 | composing along two chains one after the other is composing along their concatenation |
| Scene.AppendKeepsModelViews | RunningBot/RunningBot/main.cpp:130-136 | creating a further part never changes the model-view of an earlier one, so drawing each part as soon as it is created is sound |
| Scene.DrawAll | RunningBot/RunningBot/main.cpp:130-136 | drawing the parts in creation order gives every part inv(eye) times the object transforms along its chain |
| Body.PartAt | RunningBot/RunningBot/main.cpp:189-347 | every index in creation order names a valid part (two eyes, four fingers per hand, three toes per foot) |
| Body.SidePartAt | RunningBot/RunningBot/main.cpp:216-347 | each of the eleven per-side slots names a valid part on that side |
| Body.LayoutIsBijective | RunningBot/RunningBot/main.cpp:189-347 | the 26 creation slots and the valid parts correspond one to one |
| Body.LayoutFollowsAnatomy | RunningBot/RunningBot/main.cpp:193-346 | the trunk alone has no parent, every parent is created earlier, and every part is attached to its anatomical parent |
| Body.BodyScene | RunningBot/RunningBot/main.cpp:189-347 | the built hierarchy has 26 parts, parents first, each with its object transform and the parent it is handed |
| Body.GenerationStep | RunningBot/RunningBot/main.cpp:204-346 | a part is one generation below its anatomical parent, and only the trunk is generation 0 |
| Body.DepthIsGeneration | RunningBot/RunningBot/main.cpp:193-346 | each part's depth in the built hierarchy is its anatomical generation |
| Body.MaxDepthIsThree | RunningBot/RunningBot/main.cpp:224-243 | no part is deeper than 3, and exactly the fingers and toes reach depth 3 |
| Keyboard.Brighten | RunningBot/RunningBot/main.cpp:503-506 | a step up keeps an offset inside [0, 1.02] and never lowers it |
| Keyboard.Darken | RunningBot/RunningBot/main.cpp:507-510 | a step down keeps an offset inside [0, 1.02] and never raises it |
| Keyboard.SpeedUp | RunningBot/RunningBot/main.cpp:547-550 | `F` keeps a positive frameSpeed positive and never raises it |
| Keyboard.Step | RunningBot/RunningBot/main.cpp:464-573 | every key keeps frameSpeed positive and the colour offsets in [0, 1.02], and changes only the pose, colour, light or speed group it belongs to |
| Keyboard.Run | RunningBot/RunningBot/main.cpp:464-573 | any sequence of key presses keeps the settings valid, and leaves the speed or the pose alone if no key of that group occurs |
| Keyboard.RunAppend | RunningBot/RunningBot/main.cpp:464-573 | handling two batches of keys in turn is handling their concatenation |
| Keyboard.ReachableIsValid | RunningBot/RunningBot/main.cpp:29-33 | from the program's initial values, every sequence of keys leads to valid settings |
| Keyboard.ResetKeys | RunningBot/RunningBot/main.cpp:497-541 | `v` zeroes exactly the six pose values, `c` zeroes the colour and restores the default light, `C` sets the colour to 1 |
| Keyboard.UnlistedKeyIgnored | RunningBot/RunningBot/main.cpp:465-573 | a key the handler does not list changes nothing |
| Keyboard.MoveKeysCancel | RunningBot/RunningBot/main.cpp:467-478 | w/s and a/d undo each other |
| Keyboard.TurnKeysCancel | RunningBot/RunningBot/main.cpp:479-496 | x/X, y/Y and z/Z undo each other |
| Keyboard.LightKeysCancel | RunningBot/RunningBot/main.cpp:554-571 | k/K, l/L and i/I undo each other |
| Keyboard.SpeedKeysCancel | RunningBot/RunningBot/main.cpp:544-550 | `f` then `F` restores a positive frameSpeed; `F` then `f` restores it exactly when it was above 5 |
| Keyboard.ColourStepsCancel | RunningBot/RunningBot/main.cpp:503-526 | a colour step up then down restores an offset in [0, 1.0]; a step down then up restores one in [0.02, 1.02] |

## Left out

- All graphics calls: `BufferBinder::draw` (main.cpp:66-79), the uniform uploads in `Entity::draw`, the projection matrix, `init` (shaders, sphere mesh, colour buffer, main.cpp:357-454), and `reshape`, `idle` and `main`. They are I/O against the graphics library.
- The normal matrix `transpose(inv(modelView))` (main.cpp:107-109). `transpose` belongs to the matrix library, which is not part of this model.
- The internals of `Matrix4`, `Quat`, `quatToMatrix`, `inv` and `makeSphere`. They live in headers that are not part of this model. Transforms are words of abstract factors, so equal words mean equal matrices, but cancellation such as `M * inv(M) = identity` is not modelled.
- The eye matrix (main.cpp:171-175). It is a fixed 40° turn about Y, the three pose rotations (as quaternions) and a translation by 30 along z. The model takes it as an opaque input.
- The concrete scale, translate and rotate factors of each part, and the axis-shift conjugation `axisShift * M * inv(axisShift)`. The object transforms are inputs to `Body.BodyScene`. The conjugated `M` also scales and translates, so in general the conjugation does not keep the pivot fixed.
- How the joint angles enter the parts' rotations. This includes the arms' base half turn composed with the swing, which is a quaternion product. `Joints` gives only the time-driven angles. The constant rotations, the arms' half turn and the elbows' bend, are part of the object transforms.
- Floating-point rounding. All scalars are `real`, so the 0.02 colour steps are exact here but not in the program. The `int` width of `timeSinceStart` is not modelled either. Nor is the fact that `int revolution` (main.cpp:150) has no defined value once |timeCrunch| reaches 2^31, because the conversion overflows; the model's `Floor` is unbounded.
- The heap allocation of each `Entity` with `new` and its never being freed (main.cpp:131).

## Findings

| source | as written | input that shows it | evidently intended | confidence | as-written member | corrected member |
|---|---|---|---|---|---|---|
| RunningBot/RunningBot/main.cpp:153-154 | the falling branch returns `(ceil(x) - x) * anglePerRev`, which is 0 when the quotient `x` is a whole odd number | `calculateTimeAngle(90, 90)` returns 0, while times 89 and 91 give 89. With frameSpeed 10 at 900 ms, the right arm goes from -44 to +45 and back to -44 | `((revolution + 1) - x) * anglePerRev`, which is the full period at odd multiples, so the wave stays continuous as the comment at main.cpp:139-142 says | high, not executed | Oscillator.OddMultipleDip, Joints.ArmGlitchAt900ms | Oscillator.ContinuousTimeAngle, Oscillator.OddMultipleContinuous, Oscillator.ContinuousHalfWaveMirror |

The joint angles in `Joints` keep the program's wave, because they model the
angles the program actually displays. `Oscillator.DiffersOnlyAtOddMultiples`
shows the two waves agree except at the odd multiples, so the joint angles
are the same for both waves at every other time.
`Joints.ContinuousGaitAlternates` restates the gait with the continuous
wave, where it needs no exception.
