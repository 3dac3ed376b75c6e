/** The shared record types of the editor (types.ts). */
module EditorTypes {
  import opened Nullable

  /** Whether a stroke paints the mask or erases it. */
  datatype EditMode = Paint | Erase

  /** The application store. Images are data URLs; `history` is the linear
      list of background snapshots and `historyIndex` the cursor into it
      (-1 when there is no background yet). */
  datatype EditorState = EditorState(
    originalImage: Option<string>,
    maskData: Option<string>,
    resultImage: Option<string>,
    subjectImage: Option<string>,
    subjectMaskData: Option<string>,
    isProcessing: bool,
    prompt: string,
    brushSize: int,
    history: seq<string>,
    historyIndex: int,
    editMode: EditMode,
    zoomSpeed: int,
    panSensitivity: int)
}
