# Palm-leaf manuscript OCR page: annotator and upload controller

The application is a single page. The user picks an image of a palm-leaf
manuscript, a third-party OCR engine recognizes it, and the recognized text is
shown with some characters highlighted. Only two parts of it are the
application's own logic, and this Dafny project models both:

- **The annotator** (`annotator.dfy`, module `Annotator`). It splits the
  recognized text into UTF-16 code units and looks each unit up in a fixed
  substitution table. A unit that is a key becomes a highlighted segment whose
  text is the table's value; the original unit is dropped. Any other unit
  becomes a plain segment holding that unit. The table is a
  `map<string, string>`, so its one two-unit key (Sinhala iyanna followed by
  anusvaraya) is kept as it is. The model proves that this key can never match.
  The source guards the lookup with a truthiness test. That test is modelled
  literally (the key is present and its value is non-empty) and then proved to
  mean just "the key is present". Every character in the table lies in the
  Basic Multilingual Plane. The input is taken to lie there too, so that one
  Dafny `char` is one code unit (see "## Left out").
- **The controller** (`app.dfy`, module `App`). Class `App` holds the page's
  four state fields: `image`, `text`, `highlightedText` and `loading`. The
  recognizer is awaited at one point, and that point splits processing in two.
  `Upload` is the file-input handler plus the part of processing before the
  wait. `Finish` is the part after the wait, and it receives the recognizer's
  outcome as a parameter. Two ghost fields make the invariant `Valid()`
  statable: `pending` counts recognitions that have started and not finished,
  and `annotated` is the text whose annotation is on display. Each object-URL
  handle is a freshly allocated `ObjectUrl` object. A few client methods run
  whole scenarios on a fresh page. One of them shows that a stale completion
  overwrites the state and clears the loading flag.

Three behaviours of the code are worth knowing, and the model follows the code
in all of them:

- The `text` field itself is never rendered. What the page draws from the
  state is the preview image (src/App.tsx:67), the loading paragraph while
  `loading` is true (src/App.tsx:69) and the segments (src/App.tsx:73). The
  title, the file input and the result heading are always drawn. The
  "Processing..." that the user sees comes from the loading paragraph's own
  literal, not from `text`. The initial placeholder and the error message
  never appear. After a rejection on a fresh page, the only state-dependent
  thing shown is the preview (`App.RejectOne`).
- A rejected recognition does not clear the segments on display. Only the
  text is set (src/App.tsx:55-57), so the segments of the last success stay
  visible (`App.RejectAfterSuccess`).
- The segments on display do not always spell out the `text` field. Before
  the first success, and after a rejection, the segments belong to a different
  text. After a success they have the same length as the text, but a unit is
  replaced at every key position. What always holds is `Valid()`: the
  segments are the annotation of the last recognized text, or empty.

## Model

| member | source | states |
|---|---|---|
| `Annotator.TableShape` | src/App.tsx:5-15 | The table is keyed by strings and keeps the two-unit key. Every other key is a single code unit |
| `Annotator.TableValuesNonEmpty` | src/App.tsx:5-15 | No value of the table is the empty string |
| `Annotator.TwoUnitKeyUnitsAreNotKeys` | src/App.tsx:13 | Neither unit of the two-unit key is a key on its own |
| `Annotator.Matches` | src/App.tsx:19 | The guard is the literal truthiness test: key present and value non-empty. It holds exactly when the one-unit string is a key, since no value in the table is empty |
| `Annotator.AnnotateUnit` | src/App.tsx:19-26 | The map callback: a unit that is a key gives a highlighted segment holding the key's value. Any other unit gives a plain segment holding that unit |
| `Annotator.AutoCorrectText` | src/App.tsx:17-29 | There is one segment per input code unit, in input order, so the empty text gives no segments. A unit that is a key gives a highlighted segment holding the key's value. Any other unit gives a plain segment holding that unit |
| `Annotator.AnnotateAppend` | src/App.tsx:18 | Each unit is annotated independently of its neighbours: annotating a concatenation gives the concatenation of the two annotations |
| `Annotator.ReachableValuesAreOneUnit` | src/App.tsx:5-15 | Every value reached from a one-unit key is exactly one unit long |
| `Annotator.ReachableValuesAreNotKeys` | src/App.tsx:5-15 | No value reached from a one-unit key is itself a key of the table |
| `Annotator.SegmentIsOneUnit` | src/App.tsx:18-26 | Every segment the annotator emits has a one-unit text |
| `Annotator.FlattenAnnotation` | src/App.tsx:18-26 | The segment texts run together equal a unit-by-unit substitution of the input, so they have the same length as the input |
| `Annotator.NonKeysUnchanged` | src/App.tsx:25-26 | Every position whose unit is not a key is displayed unchanged |
| `Annotator.TwoUnitKeyNeverMatches` | src/App.tsx:13-19 | Wherever the two-unit key occurs in the input, its two units come out as two plain segments holding those units |
| `Annotator.TwoUnitValueNeverShown` | src/App.tsx:13-22 | No segment ever carries the two-unit key's value |
| `Annotator.ShownUnitIsNotKey` | src/App.tsx:5-26 | No unit of the displayed text is a key of the table |
| `Annotator.ReannotateIsPlain` | src/App.tsx:5-26 | Annotating the displayed text again highlights nothing and reproduces the same displayed text |
| `App.App.constructor` | src/App.tsx:32-35 | The page starts with no image, the initial placeholder text, no segments and loading off |
| `App.App.Upload` | src/App.tsx:37-48 | With no file, nothing changes. With a file, image becomes a fresh handle for that file, loading turns on and text becomes "Processing...". The segments are left as they were. The invariant is kept |
| `App.App.Finish` | src/App.tsx:49-58 | Loading always turns off and the image stays. On success, text is the result and the segments are its annotation, with the same length. On rejection, text is "Error processing the image." and the segments stay. The invariant is kept |
| `App.RecognizeOne` | src/App.tsx:37-58 | On a fresh page, one upload that is recognized ends with text set to the result, the segments set to its annotation, and loading off |
| `App.RejectOne` | src/App.tsx:37-58 | On a fresh page, one upload that is rejected ends with text set to the error message, no segments (so nothing rendered in the result area), and loading off |
| `App.RejectAfterSuccess` | src/App.tsx:53-57 | A rejection after a success sets text to the error message and keeps the earlier success's segments on display |
| `App.OverlappingUploads` | src/App.tsx:46-58 | With two overlapping uploads, the first completion clears loading while the other recognition still runs. The completion written last sets text and segments to the older file's result, while the image read after both completions is still the newer file's preview |
| `App.PickNothing` | src/App.tsx:37-39 | A change event that carries no file leaves the fresh page as it was: initial text, no segments, loading off, no image |
| `App.ObjectUrl.constructor` | src/App.tsx:40 | A preview handle is a new object that records the file it was made for |

## Left out

- The OCR engine call, its `"sin+eng"` language hint and its progress logger (src/App.tsx:50-52) are a foreign library. Only their outcome is modelled, as the `Recognition` parameter of `Finish`.
- `URL.createObjectURL` (src/App.tsx:40) is a browser API. It is modelled as the allocation of a new `ObjectUrl` object that records its file.
- The rendering is left out: the JSX spans, `key={index}`, the styles, class names and markup (src/App.tsx:21-26, 61-76). A segment keeps only its text and its highlight flag.
- React's hook machinery and the batching of state updates are left out. Each `setX` call is a field assignment, and the assignments made before and after the wait are grouped into `Upload` and `Finish`.
- Real asynchrony is left out. Overlapping uploads are modelled only as `Upload` and `Finish` calls in any order. `Finish` does not know which upload it completes, just as the source does not.
- Annotator.AutoCorrectText: one segment per UTF-16 code unit holds only for text inside the Basic Multilingual Plane. A Dafny `string` is a sequence of Unicode scalar values and cannot hold a lone surrogate, so a character outside that plane becomes one segment here, where the source's split gives two plain lone-surrogate segments. The OCR output is taken to be BMP text (Sinhala and Latin script).
- There is no lemma that annotating the same text twice gives the same segments. `AutoCorrectText` is a Dafny function, so that holds by construction.
- JavaScript property lookup also finds inherited properties of `Object.prototype`. All of their names are longer than one code unit, so a one-unit lookup can never find one, and the model leaves them out.
