/** The application's store (App.tsx): the `EditorState` record and the
    handlers that replace its fields, with the linear edit history of
    background images and its cursor. Each handler is first a function
    from the old record to the new one; the `Store` class then performs
    the same updates field by field and is proved against those
    functions. Files read by the browser, the service's answer and the
    values typed or chosen in the page are inputs. */
module EditorStore {
  import opened Nullable
  import opened EditorTypes
  import opened GeminiService

  const DefaultBrushSize: int := 40
  const DefaultZoomSpeed: int := 5
  const DefaultPanSensitivity: int := 5

  /** The message shown when the service answers without an image. */
  const NoImageMessage: string := "Gemini AI không thể ghép ảnh. Thử tô vùng chọn rõ hơn."
  /** The message shown for an error without a message of its own. */
  const FallbackErrorMessage: string := "Lỗi khi xử lý ảnh."

  /** The state of the first render. */
  function Initial(): EditorState
  {
    EditorState(None, None, None, None, None, false, "", DefaultBrushSize, [], -1, Paint,
                DefaultZoomSpeed, DefaultPanSensitivity)
  }

  /** The cursor points into the history, or is -1 exactly when the history
      is empty. */
  predicate IndexInRange(s: EditorState)
  {
    -1 <= s.historyIndex < |s.history| && (s.historyIndex == -1 <==> s.history == [])
  }

  /** The store's invariant: the cursor is in range and the background
      shown is the history entry under the cursor, with no background
      before the first upload. */
  predicate Inv(s: EditorState)
  {
    && IndexInRange(s)
    && (s.historyIndex >= 0 ==> s.originalImage == Some(s.history[s.historyIndex]))
    && (s.historyIndex == -1 ==> s.originalImage == None)
  }

  /** Whether the undo button is enabled. */
  predicate CanUndo(s: EditorState)
  {
    s.historyIndex > 0
  }

  /** Whether the redo button is enabled. */
  predicate CanRedo(s: EditorState)
  {
    s.historyIndex < |s.history| - 1
  }

  // ---------------------------------------------------------------------
  // Handlers as functions of the old state
  // ---------------------------------------------------------------------

  /** Uploading a background: it becomes the whole history. */
  function LoadOriginal(s: EditorState, data: string): (r: EditorState)
    ensures Inv(r)
  {
    s.(originalImage := Some(data), resultImage := None, maskData := None, history := [data], historyIndex := 0)
  }

  /** Uploading the image to take the subject from. */
  function LoadSubject(s: EditorState, data: string): (r: EditorState)
    ensures Inv(s) ==> Inv(r)
  {
    s.(subjectImage := Some(data), subjectMaskData := None)
  }

  /** The guard of `handleEdit`: a background and a non-empty prompt. */
  predicate CanStartEdit(s: EditorState)
  {
    IsTruthy(s.originalImage) && s.prompt != ""
  }

  /** `handleEdit` up to the call: marks the store busy when the guard
      holds, and otherwise does nothing. */
  function BeginEdit(s: EditorState): (r: EditorState)
    ensures Inv(s) ==> Inv(r)
  {
    if CanStartEdit(s) then s.(isProcessing := true) else s
  }

  /** The request `handleEdit` sends for the store's current images and
      prompt. */
  function EditRequest(s: EditorState): seq<Part>
    requires s.originalImage.Some?
  {
    RequestParts(s.originalImage.value, s.prompt, s.maskData, s.subjectImage, s.subjectMaskData)
  }

  /** `handleEdit` after the call, applied to whatever the store holds by
      then: a non-empty image becomes the result; the store is no longer
      busy either way. */
  function FinishEdit(s: EditorState, outcome: EditOutcome): (r: EditorState)
    ensures Inv(s) ==> Inv(r)
  {
    match outcome
    case Returned(image) =>
      if IsTruthy(image) then s.(resultImage := image, isProcessing := false) else s.(isProcessing := false)
    case Thrown(_) => s.(isProcessing := false)
  }

  /** The error message after the call: unchanged (cleared when the edit
      began) when an image came back, the no-image message when none did,
      and otherwise the error's own message or the fallback. */
  function SettledError(error: Option<string>, outcome: EditOutcome): Option<string>
  {
    match outcome
    case Returned(image) => if IsTruthy(image) then error else Some(NoImageMessage)
    case Thrown(message) => Some(if message != "" then message else FallbackErrorMessage)
  }

  /** `applyResult`: the result becomes the new background, replacing the
      redo tail of the history. */
  function Applied(s: EditorState): (r: EditorState)
    requires IndexInRange(s)
    ensures Inv(s) ==> Inv(r)
  {
    if !IsTruthy(s.resultImage) then s
    else
      var newHistory := s.history[..s.historyIndex + 1] + [s.resultImage.value];
      s.(originalImage := s.resultImage, resultImage := None, maskData := None, subjectMaskData := None,
         prompt := "", history := newHistory, historyIndex := |newHistory| - 1)
  }

  /** `undo`: one step back in the history, dropping the result and both
      masks. */
  function Undone(s: EditorState): (r: EditorState)
    requires IndexInRange(s)
    ensures Inv(s) ==> Inv(r)
  {
    if s.historyIndex > 0 then
      var newIndex := s.historyIndex - 1;
      s.(originalImage := Some(s.history[newIndex]), historyIndex := newIndex, resultImage := None,
         maskData := None, subjectMaskData := None)
    else s
  }

  /** `redo`: one step forward in the history, dropping the result and
      both masks. */
  function Redone(s: EditorState): (r: EditorState)
    requires IndexInRange(s)
    ensures Inv(s) ==> Inv(r)
  {
    if s.historyIndex < |s.history| - 1 then
      var newIndex := s.historyIndex + 1;
      s.(originalImage := Some(s.history[newIndex]), historyIndex := newIndex, resultImage := None,
         maskData := None, subjectMaskData := None)
    else s
  }

  /** `deleteResult`. */
  function ResultDeleted(s: EditorState): (r: EditorState)
    ensures Inv(s) ==> Inv(r)
  {
    s.(resultImage := None)
  }

  /** `resetAll`: the whole record is replaced. */
  function Reset(s: EditorState): (r: EditorState)
    ensures Inv(r)
  {
    EditorState(None, None, None, None, None, false, "", DefaultBrushSize, [], -1, Paint,
                DefaultZoomSpeed, DefaultPanSensitivity)
  }

  /** The background editor's `onMaskChange`. */
  function WithMask(s: EditorState, mask: string): (r: EditorState)
    ensures Inv(s) ==> Inv(r)
  {
    s.(maskData := Some(mask))
  }

  /** The subject editor's `onMaskChange`. */
  function WithSubjectMask(s: EditorState, mask: string): (r: EditorState)
    ensures Inv(s) ==> Inv(r)
  {
    s.(subjectMaskData := Some(mask))
  }

  /** Typing in the prompt box. */
  function WithPrompt(s: EditorState, prompt: string): (r: EditorState)
    ensures Inv(s) ==> Inv(r)
  {
    s.(prompt := prompt)
  }

  /** Removing the subject image. */
  function WithoutSubject(s: EditorState): (r: EditorState)
    ensures Inv(s) ==> Inv(r)
  {
    s.(subjectImage := None, subjectMaskData := None)
  }

  /** The paint and erase buttons. */
  function WithEditMode(s: EditorState, mode: EditMode): (r: EditorState)
    ensures Inv(s) ==> Inv(r)
  {
    s.(editMode := mode)
  }

  /** The brush size slider. */
  function WithBrushSize(s: EditorState, size: int): (r: EditorState)
    ensures Inv(s) ==> Inv(r)
  {
    s.(brushSize := size)
  }

  // ---------------------------------------------------------------------
  // Properties of the handlers
  // ---------------------------------------------------------------------

  /** The first render satisfies the invariant, and `resetAll` returns to
      exactly that state from anywhere. */
  lemma ResetAllIsInitial(s: EditorState)
    ensures Inv(Initial())
    ensures Reset(s) == Initial()
    ensures !CanUndo(Initial()) && !CanRedo(Initial()) && !CanStartEdit(Initial())
  {
  }

  /** A background upload starts a fresh history of one entry with nothing
      to undo or redo, drops the result and the background mask, and
      keeps everything about the subject. */
  lemma LoadOriginalStartsHistory(s: EditorState, data: string)
    ensures var r := LoadOriginal(s, data);
            && r.history == [data] && r.historyIndex == 0 && r.originalImage == Some(data)
            && r.resultImage == None && r.maskData == None
            && !CanUndo(r) && !CanRedo(r)
            && r.subjectImage == s.subjectImage && r.subjectMaskData == s.subjectMaskData
            && r.prompt == s.prompt && r.isProcessing == s.isProcessing
  {
  }

  /** A subject upload leaves the history, its cursor and the background
      alone and drops the old subject mask. */
  lemma LoadSubjectKeepsHistory(s: EditorState, data: string)
    ensures var r := LoadSubject(s, data);
            && r.subjectImage == Some(data) && r.subjectMaskData == None
            && r.history == s.history && r.historyIndex == s.historyIndex && r.originalImage == s.originalImage
            && r.resultImage == s.resultImage && r.maskData == s.maskData
  {
  }

  /** Without a result to apply, `applyResult` does nothing. */
  lemma ApplyResultWithoutResult(s: EditorState)
    requires IndexInRange(s) && !IsTruthy(s.resultImage)
    ensures Applied(s) == s
  {
  }

  /** Applying a result keeps the history up to the cursor, appends the
      result, moves the cursor onto it and shows it, so nothing is left to
      redo; the edit inputs are cleared and the subject kept. */
  lemma ApplyResultCommits(s: EditorState)
    requires Inv(s) && IsTruthy(s.resultImage)
    ensures var r := Applied(s);
            && r.history == s.history[..s.historyIndex + 1] + [s.resultImage.value]
            && r.historyIndex == |r.history| - 1 == s.historyIndex + 1
            && r.originalImage == s.resultImage
            && r.resultImage == None && r.maskData == None && r.subjectMaskData == None && r.prompt == ""
            && r.subjectImage == s.subjectImage
            && !CanRedo(r) && Redone(r) == r
            && (CanUndo(r) <==> s.historyIndex >= 0)
  {
  }

  /** `undo` acts only when enabled: it moves the cursor back one entry and
      shows that entry, never changes the history, and clears the result
      and both masks. */
  lemma UndoStep(s: EditorState)
    requires Inv(s)
    ensures !CanUndo(s) ==> Undone(s) == s
    ensures CanUndo(s) ==>
              var r := Undone(s);
              && r.historyIndex == s.historyIndex - 1 && r.originalImage == Some(s.history[r.historyIndex])
              && r.history == s.history
              && r.resultImage == None && r.maskData == None && r.subjectMaskData == None
              && r.prompt == s.prompt && r.subjectImage == s.subjectImage
              && CanRedo(r)
  {
  }

  /** `redo` acts only when enabled: it moves the cursor forward one entry
      and shows that entry, never changes the history, and clears the
      result and both masks. */
  lemma RedoStep(s: EditorState)
    requires Inv(s)
    ensures !CanRedo(s) ==> Redone(s) == s
    ensures CanRedo(s) ==>
              var r := Redone(s);
              && r.historyIndex == s.historyIndex + 1 && r.originalImage == Some(s.history[r.historyIndex])
              && r.history == s.history
              && r.resultImage == None && r.maskData == None && r.subjectMaskData == None
              && r.prompt == s.prompt && r.subjectImage == s.subjectImage
              && (s.historyIndex >= 0 ==> CanUndo(r))
  {
  }

  /** Undo then redo comes back to the same history entry, and so does
      redo then undo. */
  lemma UndoRedoRoundTrip(s: EditorState)
    requires Inv(s)
    ensures CanUndo(s) ==>
              var r := Redone(Undone(s));
              r.history == s.history && r.historyIndex == s.historyIndex && r.originalImage == s.originalImage
    ensures CanRedo(s) && s.historyIndex >= 0 ==>
              var r := Undone(Redone(s));
              r.history == s.history && r.historyIndex == s.historyIndex && r.originalImage == s.originalImage
  {
  }

  /** Undo right after applying a result returns to the background the
      result was made from, with the result still redoable. */
  lemma ApplyThenUndo(s: EditorState)
    requires Inv(s) && IsTruthy(s.resultImage) && s.historyIndex >= 0
    ensures var r := Undone(Applied(s));
            && r.historyIndex == s.historyIndex && r.originalImage == s.originalImage
            && r.history == s.history[..s.historyIndex + 1] + [s.resultImage.value]
            && Redone(r).originalImage == s.resultImage
  {
  }

  /** `deleteResult` changes only the result, which it clears. */
  lemma DeleteResultOnlyClearsResult(s: EditorState)
    ensures var r := ResultDeleted(s);
            r.resultImage == None && r.(resultImage := s.resultImage) == s
  {
  }

  /** `handleEdit` does nothing without a background or a prompt; with
      both it marks the store busy and sends the background first and the
      user's prompt inside the last part, with the sentence chosen by the
      subject mask. */
  lemma BeginEditGuard(s: EditorState)
    ensures !CanStartEdit(s) ==> BeginEdit(s) == s
    ensures CanStartEdit(s) ==>
              && BeginEdit(s) == s.(isProcessing := true)
              && var parts := EditRequest(s);
                 && parts[0] == ImagePart(s.originalImage.value)
                 && parts[|parts| - 1].Text?
                 && ParsePrompt(parts[|parts| - 1].text) == Some(PromptFields(IsTruthy(s.subjectMaskData), s.prompt))
  {
    if CanStartEdit(s) {
      var o := s.originalImage.value;
      ImagePartsShape(o, s.maskData, s.subjectImage, s.subjectMaskData);
      RequestPartsText(o, s.prompt, s.maskData, s.subjectImage, s.subjectMaskData);
      var parts := EditRequest(s);
      assert parts[0] == parts[..|parts| - 1][0];
    }
  }

  /** After the call the store is never busy; an image the service sent
      back becomes the result, leaving the error as it was, while an
      answer without an image or a failure leaves the store as it was and
      reports a non-empty message: the no-image message, the error's own
      message, or the fallback for an error without one. */
  lemma FinishEditSettles(s: EditorState, error: Option<string>, call: CallOutcome)
    ensures var outcome := match call
                           case Answered(response) => Returned(FirstImage(CandidateParts(response)))
                           case Failed(e) => Thrown(e);
            var r := FinishEdit(s, outcome);
            && !r.isProcessing
            && r.(isProcessing := s.isProcessing, resultImage := s.resultImage) == s
            && (if call.Answered? && outcome.image.Some?
                then r.resultImage == outcome.image && SettledError(error, outcome) == error
                else r.resultImage == s.resultImage && IsTruthy(SettledError(error, outcome)))
            && (call.Answered? && outcome.image.None? ==> SettledError(error, outcome) == Some(NoImageMessage))
            && (call.Failed? && call.error != "" ==> SettledError(error, outcome) == Some(call.error))
            && (call.Failed? && call.error == "" ==> SettledError(error, outcome) == Some(FallbackErrorMessage))
  {
  }

  // ---------------------------------------------------------------------
  // Every reachable state
  // ---------------------------------------------------------------------

  /** What the page can do to the store. */
  datatype Action =
    | UploadOriginal(data: string)
    | UploadSubject(data: string)
    | EditStarted
    | EditSettled(outcome: EditOutcome)
    | ApplyClicked
    | UndoClicked
    | RedoClicked
    | DeleteClicked
    | ResetClicked
    | MaskChanged(mask: string)
    | SubjectMaskChanged(mask: string)
    | PromptTyped(prompt: string)
    | SubjectRemoved
    | ModeChosen(mode: EditMode)
    | BrushChosen(size: int)

  /** The store together with the page's error message. */
  datatype AppState = AppState(store: EditorState, error: Option<string>)

  /** One action applied to the store and the error message. */
  function Step(a: AppState, action: Action): (r: AppState)
    requires Inv(a.store)
    ensures Inv(r.store)
  {
    var s := a.store;
    match action
    case UploadOriginal(data) => a.(store := LoadOriginal(s, data))
    case UploadSubject(data) => a.(store := LoadSubject(s, data))
    case EditStarted => AppState(BeginEdit(s), if CanStartEdit(s) then None else a.error)
    case EditSettled(outcome) => AppState(FinishEdit(s, outcome), SettledError(a.error, outcome))
    case ApplyClicked => a.(store := Applied(s))
    case UndoClicked => a.(store := Undone(s))
    case RedoClicked => a.(store := Redone(s))
    case DeleteClicked => a.(store := ResultDeleted(s))
    case ResetClicked => AppState(Reset(s), None)
    case MaskChanged(mask) => a.(store := WithMask(s, mask))
    case SubjectMaskChanged(mask) => a.(store := WithSubjectMask(s, mask))
    case PromptTyped(prompt) => a.(store := WithPrompt(s, prompt))
    case SubjectRemoved => a.(store := WithoutSubject(s))
    case ModeChosen(mode) => a.(store := WithEditMode(s, mode))
    case BrushChosen(size) => a.(store := WithBrushSize(s, size))
  }

  /** A sequence of actions applied in order. */
  function Run(a: AppState, actions: seq<Action>): AppState
    requires Inv(a.store)
    decreases |actions|
  {
    if actions == [] then a else Run(Step(a, actions[0]), actions[1..])
  }

  /** Whatever the page does, in whatever order the call's start and end
      interleave with other actions, the history invariant holds from the
      first render on. */
  lemma {:induction false} RunKeepsInv(a: AppState, actions: seq<Action>)
    requires Inv(a.store)
    ensures Inv(Run(a, actions).store)
    decreases |actions|
  {
    if actions != [] {
      RunKeepsInv(Step(a, actions[0]), actions[1..]);
    }
  }

  /** Every state reachable from the first render satisfies the invariant. */
  lemma ReachableStatesKeepInv(actions: seq<Action>)
    ensures Inv(Run(AppState(Initial(), None), actions).store)
  {
    ResetAllIsInitial(Initial());
    RunKeepsInv(AppState(Initial(), None), actions);
  }

  // ---------------------------------------------------------------------
  // The store as the component holds it
  // ---------------------------------------------------------------------

  /** The `EditorState` held by the app component, field by field, and the
      error message shown beside it. */
  class Store {
    var originalImage: Option<string>
    var maskData: Option<string>
    var resultImage: Option<string>
    var subjectImage: Option<string>
    var subjectMaskData: Option<string>
    var isProcessing: bool
    var prompt: string
    var brushSize: int
    var history: seq<string>
    var historyIndex: int
    var editMode: EditMode
    var zoomSpeed: int
    var panSensitivity: int
    var error: Option<string>

    function State(): EditorState
      reads this
    {
      EditorState(originalImage, maskData, resultImage, subjectImage, subjectMaskData, isProcessing, prompt,
                  brushSize, history, historyIndex, editMode, zoomSpeed, panSensitivity)
    }

    ghost predicate Valid()
      reads this
    {
      Inv(State())
    }

    /** The first render. */
    constructor ()
      ensures Valid() && State() == Initial() && error == None
    {
      originalImage, maskData, resultImage := None, None, None;
      subjectImage, subjectMaskData := None, None;
      isProcessing, prompt, brushSize := false, "", DefaultBrushSize;
      history, historyIndex := [], -1;
      editMode, zoomSpeed, panSensitivity := Paint, DefaultZoomSpeed, DefaultPanSensitivity;
      error := None;
    }

    /** `handleFileUpload` for the background, once the file is read. */
    method UploadOriginal(data: string)
      requires Valid()
      modifies this
      ensures Valid() && State() == LoadOriginal(old(State()), data) && error == old(error)
    {
      originalImage := Some(data);
      resultImage := None;
      maskData := None;
      history := [data];
      historyIndex := 0;
    }

    /** `handleFileUpload` for the subject, once the file is read. */
    method UploadSubject(data: string)
      requires Valid()
      modifies this
      ensures Valid() && State() == LoadSubject(old(State()), data) && error == old(error)
    {
      subjectImage := Some(data);
      subjectMaskData := None;
    }

    /** `handleEdit`, with the service's answer `call` arriving before any
        other handler runs: returns the request it sends, or `None` when
        the guard stops it, and the outcome of `editImage`. */
    method HandleEdit(call: CallOutcome) returns (sent: Option<seq<Part>>, outcome: Option<EditOutcome>)
      requires Valid()
      modifies this
      ensures Valid()
      ensures !CanStartEdit(old(State())) ==>
                State() == old(State()) && error == old(error) && sent == None && outcome == None
      ensures CanStartEdit(old(State())) ==>
                && sent == Some(EditRequest(old(State())))
                && outcome.Some?
                && (outcome.value.Thrown? <==> call.Failed?)
                && (call.Failed? ==> outcome.value.error == call.error)
                && (call.Answered? ==> outcome.value.image == FirstImage(CandidateParts(call.response)))
                && State() == FinishEdit(BeginEdit(old(State())), outcome.value)
                && error == SettledError(None, outcome.value)
    {
      if !IsTruthy(originalImage) || prompt == "" {
        return None, None;
      }
      isProcessing := true;
      error := None;
      var request, result := EditImage(originalImage.value, prompt, maskData, subjectImage, subjectMaskData, call);
      sent, outcome := Some(request), Some(result);
      Settle(result);
    }

    /** The end of `handleEdit`: shows the image that came back, or the
        message for its absence or for the error, and leaves the busy state. */
    method Settle(outcome: EditOutcome)
      requires Valid()
      modifies this
      ensures Valid()
      ensures State() == FinishEdit(old(State()), outcome) && error == SettledError(old(error), outcome)
    {
      match outcome
      case Returned(image) =>
        if IsTruthy(image) {
          resultImage := image;
          isProcessing := false;
        } else {
          error := Some(NoImageMessage);
          isProcessing := false;
        }
      case Thrown(message) =>
        error := Some(if message != "" then message else FallbackErrorMessage);
        isProcessing := false;
    }

    /** `applyResult`: copies the history up to the cursor, pushes the
        result onto the copy and installs it. */
    method ApplyResult()
      requires Valid()
      modifies this
      ensures Valid() && State() == Applied(old(State())) && error == old(error)
    {
      if !IsTruthy(resultImage) {
        return;
      }
      var newHistory := history[..historyIndex + 1];
      newHistory := newHistory + [resultImage.value];
      originalImage := resultImage;
      resultImage := None;
      maskData := None;
      subjectMaskData := None;
      prompt := "";
      history := newHistory;
      historyIndex := |newHistory| - 1;
    }

    /** `undo`. */
    method Undo()
      requires Valid()
      modifies this
      ensures Valid() && State() == Undone(old(State())) && error == old(error)
    {
      if historyIndex > 0 {
        var newIndex := historyIndex - 1;
        originalImage := Some(history[newIndex]);
        historyIndex := newIndex;
        resultImage := None;
        maskData := None;
        subjectMaskData := None;
      }
    }

    /** `redo`. */
    method Redo()
      requires Valid()
      modifies this
      ensures Valid() && State() == Redone(old(State())) && error == old(error)
    {
      if historyIndex < |history| - 1 {
        var newIndex := historyIndex + 1;
        originalImage := Some(history[newIndex]);
        historyIndex := newIndex;
        resultImage := None;
        maskData := None;
        subjectMaskData := None;
      }
    }

    /** `deleteResult`. */
    method DeleteResult()
      requires Valid()
      modifies this
      ensures Valid() && State() == ResultDeleted(old(State())) && error == old(error)
    {
      resultImage := None;
    }

    /** `resetAll`: the initial record, and no error. */
    method ResetAll()
      requires Valid()
      modifies this
      ensures Valid() && State() == Reset(old(State())) && error == None
    {
      originalImage, maskData, resultImage := None, None, None;
      subjectImage, subjectMaskData := None, None;
      isProcessing, prompt, brushSize := false, "", DefaultBrushSize;
      history, historyIndex := [], -1;
      editMode, zoomSpeed, panSensitivity := Paint, DefaultZoomSpeed, DefaultPanSensitivity;
      error := None;
      assert State() == Initial();
      ResetAllIsInitial(old(State()));
    }

    /** The background editor's `onMaskChange`. */
    method SetMask(mask: string)
      requires Valid()
      modifies this
      ensures Valid() && State() == WithMask(old(State()), mask) && error == old(error)
    {
      maskData := Some(mask);
    }

    /** The subject editor's `onMaskChange`. */
    method SetSubjectMask(mask: string)
      requires Valid()
      modifies this
      ensures Valid() && State() == WithSubjectMask(old(State()), mask) && error == old(error)
    {
      subjectMaskData := Some(mask);
    }

    /** Typing in the prompt box. */
    method SetPrompt(text: string)
      requires Valid()
      modifies this
      ensures Valid() && State() == WithPrompt(old(State()), text) && error == old(error)
    {
      prompt := text;
    }

    /** Removing the subject image. */
    method RemoveSubject()
      requires Valid()
      modifies this
      ensures Valid() && State() == WithoutSubject(old(State())) && error == old(error)
    {
      subjectImage := None;
      subjectMaskData := None;
    }

    /** The paint and erase buttons. */
    method SetEditMode(mode: EditMode)
      requires Valid()
      modifies this
      ensures Valid() && State() == WithEditMode(old(State()), mode) && error == old(error)
    {
      editMode := mode;
    }

    /** The brush size slider. */
    method SetBrushSize(size: int)
      requires Valid()
      modifies this
      ensures Valid() && State() == WithBrushSize(old(State()), size) && error == old(error)
    {
      brushSize := size;
    }
  }
}
