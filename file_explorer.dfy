/**
  The list view of src/file_explorer.rs: a window of `viewportSize` rows over `files` entries,
  starting at `startIndex`, with one highlighted entry. Drawing and its cache are not modelled.
*/
module FileExplorer {

  class FileExplorer {
    const files: nat
    const viewportSize: nat
    var highlightedIndex: nat
    var startIndex: nat

    /**
      The window fits in the list: it starts no later than `files - viewportSize`; and the
      highlight is an entry (or 0 in an empty list).
    */
    ghost predicate Valid()
      reads this
    {
      && viewportSize <= files && startIndex <= files - viewportSize
      && (highlightedIndex < files || highlightedIndex == 0)
    }

    /** The highlighted entry is one of the visible rows. */
    ghost predicate HighlightVisible()
      reads this
    {
      startIndex <= highlightedIndex < startIndex + viewportSize
    }

    /**
      `FileExplorer::new` (src/file_explorer.rs:20-27): the window is at most as tall as the
      list, starts at the top, and the first entry is highlighted.
    */
    constructor (files: nat, requestedSize: nat)
      ensures Valid()
      ensures this.files == files
      ensures viewportSize == if files < requestedSize then files else requestedSize
      ensures startIndex == 0 && highlightedIndex == 0
      ensures viewportSize >= 1 ==> HighlightVisible()
    {
      this.files := files;
      viewportSize := if files < requestedSize then files else requestedSize;
      startIndex := 0;
      highlightedIndex := 0;
      new;
      SetViewport(0);
    }

    /**
      `max_start_index_value` (src/file_explorer.rs:28-30): the last start at which a window of
      `viewportSize` rows still lies within the list.
    */
    function MaxStartIndexValue(): (m: nat)
      reads this
      requires viewportSize <= files
      ensures m + viewportSize == files
    {
      files - viewportSize
    }

    /**
      `set_viewport` (src/file_explorer.rs:31-38): the window starts at `start`, or as low as
      it can go when `start` is past that.
    */
    method SetViewport(start: nat)
      requires viewportSize <= files && (highlightedIndex < files || highlightedIndex == 0)
      modifies `startIndex
      ensures Valid()
      ensures start <= MaxStartIndexValue() ==> startIndex == start
      ensures start > MaxStartIndexValue() ==> startIndex == MaxStartIndexValue()
    {
      var newStart := start;
      var maxValue := MaxStartIndexValue();
      if newStart > maxValue {
        newStart := maxValue;
      }
      startIndex := newStart;
    }

    /** `move_viewport_down` (src/file_explorer.rs:39-43): one row down unless at the bottom. */
    method MoveViewportDown()
      requires Valid()
      modifies `startIndex
      ensures Valid()
      ensures old(startIndex) < MaxStartIndexValue() ==> startIndex == old(startIndex) + 1
      ensures old(startIndex) == MaxStartIndexValue() ==> startIndex == old(startIndex)
    {
      if startIndex < MaxStartIndexValue() {
        SetViewport(startIndex + 1);
      }
    }

    /** `move_viewport_up` (src/file_explorer.rs:44-48): one row up unless at the top. */
    method MoveViewportUp()
      requires Valid()
      modifies `startIndex
      ensures Valid()
      ensures old(startIndex) > 0 ==> startIndex == old(startIndex) - 1
      ensures old(startIndex) == 0 ==> startIndex == 0
    {
      if startIndex > 0 {
        SetViewport(startIndex - 1);
      }
    }

    /**
      `move_highlight_by` (src/file_explorer.rs:49-55): the highlight moves by `n` when that
      lands on an entry, and stays otherwise.
    */
    method MoveHighlightBy(n: int)
      requires Valid()
      modifies `highlightedIndex
      ensures Valid()
      ensures 0 <= old(highlightedIndex) + n < files ==> highlightedIndex == old(highlightedIndex) + n
      ensures !(0 <= old(highlightedIndex) + n < files) ==> highlightedIndex == old(highlightedIndex)
    {
      var newIndex := highlightedIndex + n;
      if newIndex >= 0 && newIndex < files {
        highlightedIndex := newIndex;
      }
    }

    /** `set_highlight` (src/file_explorer.rs:56-60): ignored unless `position` is an entry. */
    method SetHighlight(position: nat)
      requires Valid()
      modifies `highlightedIndex
      ensures Valid()
      ensures position < files ==> highlightedIndex == position
      ensures position >= files ==> highlightedIndex == old(highlightedIndex)
    {
      if position < files {
        highlightedIndex := position;
      }
    }

    /**
      `move_down` (src/file_explorer.rs:61-67): from the bottom row the window scrolls first;
      then the highlight moves one down. The distance `highlighted - start` is a usize
      subtraction, so the highlight must not be above the window, and the window must have a row.
      The highlight stays visible.
    */
    method MoveDown()
      requires Valid() && viewportSize >= 1 && startIndex <= highlightedIndex
      modifies `startIndex, `highlightedIndex
      ensures Valid()
      ensures old(HighlightVisible()) ==> HighlightVisible()
      ensures old(highlightedIndex) + 1 < files ==> highlightedIndex == old(highlightedIndex) + 1
      ensures old(highlightedIndex) + 1 >= files ==> highlightedIndex == old(highlightedIndex)
      ensures startIndex == if old(highlightedIndex) - old(startIndex) == viewportSize - 1
                               && old(startIndex) < MaxStartIndexValue()
                            then old(startIndex) + 1 else old(startIndex)
    {
      var index := highlightedIndex;
      if index - startIndex == viewportSize - 1 {
        MoveViewportDown();
      }
      MoveHighlightBy(1);
    }

    /**
      `move_up` (src/file_explorer.rs:68-74): from the top row the window scrolls first; then
      the highlight moves one up. The highlight stays visible.
    */
    method MoveUp()
      requires Valid() && startIndex <= highlightedIndex
      modifies `startIndex, `highlightedIndex
      ensures Valid()
      ensures old(HighlightVisible()) ==> HighlightVisible()
      ensures old(highlightedIndex) > 0 ==> highlightedIndex == old(highlightedIndex) - 1
      ensures old(highlightedIndex) == 0 ==> highlightedIndex == 0
      ensures startIndex == if old(highlightedIndex) == old(startIndex) && old(startIndex) > 0
                            then old(startIndex) - 1 else old(startIndex)
    {
      if highlightedIndex - startIndex == 0 {
        MoveViewportUp();
      }
      MoveHighlightBy(-1);
    }
  }
}
