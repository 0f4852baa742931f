/**
  The upload and processing controller of the OCR page: four pieces of UI
  state that change when the user picks a file and when recognition of that
  file completes. The wait for the recognizer splits processing in two:
  `Upload` is everything up to the wait, `Finish` everything after it, given
  the recognizer's outcome.
 */
module App {
  import opened Annotator

  datatype Option<T> = None | Some(value: T)

  /** A file handed over by the file picker; its contents are not looked at. */
  datatype File = File(name: string)

  /** A preview handle for a file. Each one is a new object, as every call
      of the browser's object-URL factory yields a new URL. */
  class ObjectUrl {
    const file: File

    constructor (file: File)
      ensures this.file == file
    {
      this.file := file;
    }
  }

  /** How a recognition ends: with the recognized text, or rejected. */
  datatype Recognition = Recognized(text: string) | Rejected

  const InitialText: string := "Processing result will appear here..."
  const ProcessingText: string := "Processing..."
  const ErrorText: string := "Error processing the image."

  class App {
    var image: Option<ObjectUrl>
    var text: string
    var highlightedText: seq<Segment>
    var loading: bool

    /** Recognitions started and not yet completed. */
    ghost var pending: nat
    /** The text whose annotation is on display ("" before any success). */
    ghost var annotated: string

    /** What every reachable state satisfies: the segments on display are
        the annotation of some recognized text, the loading flag is only set
        while a recognition is running and `text` holds the waiting message,
        and until a file is picked nothing has changed. */
    ghost predicate Valid()
      reads this
    {
      && highlightedText == AutoCorrectText(annotated)
      && (loading ==> pending > 0 && text == ProcessingText)
      && (pending > 0 ==> image.Some?)
      && (image.None? ==> text == InitialText && highlightedText == [] && !loading)
    }

    constructor ()
      ensures Valid()
      ensures image == None && text == InitialText && highlightedText == [] && !loading
      ensures pending == 0
    {
      image := None;
      text := InitialText;
      highlightedText := [];
      loading := false;
      pending := 0;
      annotated := "";
    }

    /** The file input's change handler together with the part of
        processing that runs before the recognizer is awaited. */
    method Upload(file: Option<File>)
      requires Valid()
      modifies this
      ensures Valid()
      ensures file.None? ==> unchanged(this)
      ensures file.Some? ==>
        && image.Some? && fresh(image.value) && image.value.file == file.value
        && loading && text == ProcessingText
        && highlightedText == old(highlightedText)
        && pending == old(pending) + 1 && annotated == old(annotated)
    {
      if file.Some? {
        var imageUrl := new ObjectUrl(file.value);
        image := Some(imageUrl);
        loading := true;
        text := ProcessingText;
        pending := pending + 1;
      }
    }

    /** The part of processing that runs once the recognizer has settled.
        It does not know which upload it belongs to, so a late completion of
        an earlier upload overwrites the state all the same. */
    method Finish(outcome: Recognition)
      requires Valid() && pending > 0
      modifies this
      ensures Valid()
      ensures !loading && image == old(image) && pending == old(pending) - 1
      ensures outcome.Recognized? ==>
        && text == outcome.text
        && highlightedText == AutoCorrectText(outcome.text)
        && |Flatten(highlightedText)| == |text|
      ensures outcome.Rejected? ==>
        text == ErrorText && highlightedText == old(highlightedText) && annotated == old(annotated)
    {
      match outcome {
        case Recognized(recognized) =>
          text := recognized;
          highlightedText := AutoCorrectText(recognized);
          annotated := recognized;
          FlattenAnnotation(recognized);
        case Rejected =>
          text := ErrorText;
      }
      loading := false;
      pending := pending - 1;
    }
  }

  /** One picked file that is recognized: `text` ends up holding the
      recognized text, the segments on display are its annotation, and the
      loading indicator is gone. */
  method RecognizeOne(file: File, result: string)
    returns (text: string, segments: seq<Segment>, loading: bool)
    ensures text == result && segments == AutoCorrectText(result) && !loading
  {
    var app := new App();
    app.Upload(Some(file));
    app.Finish(Recognized(result));
    text, segments, loading := app.text, app.highlightedText, app.loading;
  }

  /** One picked file whose recognition is rejected, on a fresh page:
      `text` holds the error message, but `text` is never rendered and no
      segment is on display, so apart from the preview nothing the page
      draws from its state is left, and no error message appears. */
  method RejectOne(file: File)
    returns (text: string, segments: seq<Segment>, loading: bool)
    ensures text == ErrorText && segments == [] && !loading
  {
    var app := new App();
    app.Upload(Some(file));
    app.Finish(Rejected);
    text, segments, loading := app.text, app.highlightedText, app.loading;
  }

  /** A rejection after a success: `text` holds the error message but the
      segments of the earlier success stay on display. */
  method RejectAfterSuccess(first: File, second: File, result: string)
    returns (text: string, segments: seq<Segment>)
    ensures text == ErrorText && segments == AutoCorrectText(result)
  {
    var app := new App();
    app.Upload(Some(first));
    app.Finish(Recognized(result));
    app.Upload(Some(second));
    app.Finish(Rejected);
    text, segments := app.text, app.highlightedText;
  }

  /** Two overlapping uploads whose recognitions complete in reverse order:
      the first completion already clears the loading flag while the other
      recognition is still running, and the stale result written last wins
      while the preview, read at the end, still shows the newer file. */
  method OverlappingUploads(first: File, second: File, firstResult: string, secondResult: string)
    returns (loadingWhileRunning: bool, text: string, segments: seq<Segment>, preview: File)
    ensures !loadingWhileRunning
    ensures text == firstResult && segments == AutoCorrectText(firstResult)
    ensures preview == second
  {
    var app := new App();
    app.Upload(Some(first));
    app.Upload(Some(second));
    app.Finish(Recognized(secondResult));
    loadingWhileRunning := app.loading;
    app.Finish(Recognized(firstResult));
    text, segments, preview := app.text, app.highlightedText, app.image.value.file;
  }

  /** Picking no file leaves the page as it was. */
  method PickNothing() returns (text: string, segments: seq<Segment>, loading: bool, previewed: bool)
    ensures text == InitialText && segments == [] && !loading && !previewed
  {
    var app := new App();
    app.Upload(None);
    text, segments, loading, previewed := app.text, app.highlightedText, app.loading, app.image.Some?;
  }
}
