/** The drawing constants and the interaction modes of the polygon editor. */
module CanvasConst {

  /** RECTANGLE_COLOR.purple: the default fill, an "R, G, B" channel triplet. */
  const Purple: string := "63, 27, 160"

  /** The modes of the editor's interaction state machine. `Moving` and
      `Rotating` are transient: a pointer-down that selects them turns them
      into `Drag` before it returns. */
  datatype CanvasState = Idle | Drawing | Moving | Rotating | Drag
}
