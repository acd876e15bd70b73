/**
 * The whiteboard's undo/redo history (src/components/Whiteboard.tsx): a list
 * of canvas snapshots and a cursor into it. Saving truncates everything after
 * the cursor and appends; undo and redo move the cursor and put the snapshot
 * under it back on the canvas. Snapshots are opaque values of type `Image`.
 */
module Whiteboard {
  import opened Wrappers

  class Whiteboard<Image> {
    /** Whether the 2D context was obtained (`ctx` is not null). */
    var hasContext: bool
    /** The snapshot most recently put on the canvas by mounting, clearing, undo or redo. */
    var canvas: Option<Image>
    var history: seq<Image>
    var historyIndex: int

    /** The cursor is -1 exactly when the history is empty, and otherwise points into it. */
    ghost predicate Valid()
      reads this
    {
      -1 <= historyIndex < |history| && (historyIndex == -1 <==> |history| == 0)
    }

    constructor()
      ensures Valid() && history == [] && historyIndex == -1 && !hasContext && canvas.None?
    {
      hasContext := false;
      canvas := None;
      history := [];
      historyIndex := -1;
    }

    /** `saveToHistory`: drops every entry after the cursor, appends the snapshot, and moves the cursor onto it. */
    method SaveToHistory(image: Image)
      requires Valid()
      modifies this
      ensures Valid()
      ensures history == old(history[..historyIndex + 1]) + [image]
      ensures historyIndex == old(historyIndex) + 1 == |history| - 1
      ensures hasContext == old(hasContext) && canvas == old(canvas)
    {
      history := history[..historyIndex + 1] + [image];
      historyIndex := historyIndex + 1;
    }

    /** `undo`: without a context or at the first entry nothing happens; otherwise one step back. */
    method Undo()
      requires Valid()
      modifies this
      ensures Valid()
      ensures history == old(history) && hasContext == old(hasContext)
      ensures !old(hasContext) || old(historyIndex) <= 0 ==>
        historyIndex == old(historyIndex) && canvas == old(canvas)
      ensures old(hasContext) && old(historyIndex) > 0 ==>
        historyIndex == old(historyIndex) - 1 && canvas == Some(history[historyIndex])
    {
      if !hasContext || historyIndex <= 0 {
        return;
      }
      var newIndex := historyIndex - 1;
      canvas := Some(history[newIndex]);
      historyIndex := newIndex;
    }

    /** `redo`: without a context or at the last entry nothing happens; otherwise one step forward. */
    method Redo()
      requires Valid()
      modifies this
      ensures Valid()
      ensures history == old(history) && hasContext == old(hasContext)
      ensures !old(hasContext) || old(historyIndex) >= |history| - 1 ==>
        historyIndex == old(historyIndex) && canvas == old(canvas)
      ensures old(hasContext) && old(historyIndex) < |history| - 1 ==>
        historyIndex == old(historyIndex) + 1 && canvas == Some(history[historyIndex])
    {
      if !hasContext || historyIndex >= |history| - 1 {
        return;
      }
      var newIndex := historyIndex + 1;
      canvas := Some(history[newIndex]);
      historyIndex := newIndex;
    }

    /** `clearCanvas`: with a context, paints the canvas blank and saves exactly that one snapshot. */
    method ClearCanvas(blank: Image)
      requires Valid()
      modifies this
      ensures Valid()
      ensures !old(hasContext) ==> history == old(history) && historyIndex == old(historyIndex) && canvas == old(canvas)
      ensures old(hasContext) ==>
        history == old(history[..historyIndex + 1]) + [blank] && historyIndex == old(historyIndex) + 1
        && canvas == Some(blank)
      ensures hasContext == old(hasContext)
    {
      if !hasContext {
        return;
      }
      canvas := Some(blank);
      SaveToHistory(blank);
    }

    /**
     * The mount effect: when the 2D context is available (`context`), the canvas
     * is painted blank and that snapshot saved; otherwise nothing happens.
     */
    method Mount(context: bool, blank: Image)
      requires Valid()
      modifies this
      ensures Valid()
      ensures !context ==>
        hasContext == old(hasContext) && history == old(history) && historyIndex == old(historyIndex) && canvas == old(canvas)
      ensures context ==>
        hasContext && canvas == Some(blank)
        && history == old(history[..historyIndex + 1]) + [blank] && historyIndex == old(historyIndex) + 1
    {
      if !context {
        return;
      }
      hasContext := true;
      canvas := Some(blank);
      SaveToHistory(blank);
    }
  }

  /** Undo followed by redo, with no save between, returns to the same entry and leaves the history alone. */
  method UndoThenRedo<Image>(w: Whiteboard<Image>)
    requires w.Valid() && w.hasContext && w.historyIndex > 0
    modifies w
    ensures w.Valid()
    ensures w.history == old(w.history) && w.historyIndex == old(w.historyIndex)
    ensures w.canvas == Some(w.history[w.historyIndex])
  {
    w.Undo();
    w.Redo();
  }

  /** A save discards the entries that redo could have reached: redo right after it does nothing. */
  method SaveThenRedo<Image>(w: Whiteboard<Image>, image: Image)
    requires w.Valid() && w.hasContext
    modifies w
    ensures w.Valid()
    ensures w.history == old(w.history[..w.historyIndex + 1]) + [image]
    ensures w.historyIndex == |w.history| - 1
  {
    w.SaveToHistory(image);
    w.Redo();
  }

  /** Mounting a fresh whiteboard gives a one-entry history at cursor 0, so undo is not possible yet. */
  method MountThenUndo<Image>(blank: Image) returns (w: Whiteboard<Image>)
    ensures w.Valid() && w.history == [blank] && w.historyIndex == 0 && w.canvas == Some(blank)
  {
    w := new Whiteboard<Image>();
    w.Mount(true, blank);
    w.Undo();
  }
}
