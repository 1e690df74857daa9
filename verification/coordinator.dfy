/**
 * `Coordinator` of the current app: the navigation state behind its
 * screens. Pushed screens go on `path`, a modal screen is the `sheet`,
 * a popover sits above both and belongs to the root coordinator, and
 * `record` lists the presented screens in presentation order.
 */
module Coordinators {
  import opened Strings

  /** The four navigation fields, as one value. */
  datatype Screens<V> = Screens(path: seq<V>, popover: Option<V>, record: seq<V>, sheet: Option<V>)

  /** `popLast`: drops the last element, and does nothing to an empty list. */
  function PopLast<V>(s: seq<V>): seq<V>
  {
    if |s| == 0 then s else s[..|s| - 1]
  }

  function PresentedPath<V>(s: Screens<V>, v: V): Screens<V>
  {
    s.(path := s.path + [v], record := s.record + [v])
  }

  function PresentedSheet<V>(s: Screens<V>, v: V): Screens<V>
  {
    s.(sheet := Some(v), record := s.record + [v])
  }

  /** `dismiss`: the popover first, else the sheet, else the top of the path. */
  function Dismissed<V>(s: Screens<V>): Screens<V>
  {
    if s.popover.Some? then s.(popover := None)
    else if s.sheet.Some? then s.(sheet := None, record := PopLast(s.record))
    else if s.path != [] then s.(path := s.path[..|s.path| - 1], record := PopLast(s.record))
    else s
  }

  /** The record lists the pushed screens and then the sheet, if any. */
  ghost predicate Consistent<V>(s: Screens<V>)
  {
    s.record == s.path + (if s.sheet.Some? then [s.sheet.value] else [])
  }

  /**
   * Dismissing undoes presenting: with no popover and no sheet up, a
   * pushed screen or a sheet is taken away again and nothing else changes.
   */
  lemma DismissUndoesPresent<V>(s: Screens<V>, v: V)
    requires s.popover.None? && s.sheet.None?
    ensures Dismissed(PresentedPath(s, v)) == s
    ensures Dismissed(PresentedSheet(s, v)) == s
  {
    assert PresentedPath(s, v).path[..|s.path|] == s.path;
    assert PopLast(s.record + [v]) == s.record;
  }

  /**
   * Dismissing keeps the record in step with the path and the sheet, and
   * so do presenting a screen or a sheet while no sheet is up. Each dismiss
   * of a sheet or a pushed screen pops the record exactly once; a popover
   * never touches it.
   */
  lemma ConsistencyKept<V>(s: Screens<V>, v: V)
    requires Consistent(s)
    ensures Consistent(Dismissed(s))
    ensures s.sheet.None? ==> Consistent(PresentedPath(s, v)) && Consistent(PresentedSheet(s, v))
    ensures s.popover.Some? ==> Dismissed(s).record == s.record
    ensures s.popover.None? && (s.sheet.Some? || s.path != []) ==> |Dismissed(s).record| == |s.record| - 1
  {
    if s.popover.None? && s.sheet.None? && s.path != [] {
      var n := |s.path| - 1;
      assert s.path == s.path[..n] + [s.path[n]];
    }
  }

  class Coordinator<V> {
    /** The coordinator this one was opened from; the root has none. */
    const parent: Option<Coordinator<V>>
    /** How far this coordinator is from the root, which keeps the parent chain finite. */
    ghost const depth: nat
    var path: seq<V>
    var popover: Option<V>
    var record: seq<V>
    var sheet: Option<V>

    /** The parent chain ends at the root. */
    ghost predicate Valid()
      decreases depth
    {
      match parent
      case None => depth == 0
      case Some(p) => p.depth < depth && p.Valid()
    }

    /** The coordinator at the end of the parent chain. */
    ghost function Root(): (r: Coordinator<V>)
      requires Valid()
      decreases depth
      ensures r.Valid() && r.parent.None?
      ensures parent.None? <==> r == this
    {
      match parent
      case None => this
      case Some(p) => p.Root()
    }

    ghost function State(): Screens<V>
      reads this
    {
      Screens(path, popover, record, sheet)
    }

    /** A root coordinator with nothing presented. */
    constructor AsRoot()
      ensures parent.None? && Valid()
      ensures State() == Screens([], None, [], None)
    {
      parent := None;
      depth := 0;
      path := [];
      popover := None;
      record := [];
      sheet := None;
    }

    /** A coordinator opened from `parent`, with nothing presented. */
    constructor Child(parent: Coordinator<V>)
      requires parent.Valid()
      ensures this.parent == Some(parent) && Valid()
      ensures State() == Screens([], None, [], None)
    {
      this.parent := Some(parent);
      depth := parent.depth + 1;
      path := [];
      popover := None;
      record := [];
      sheet := None;
    }

    /** `presentPath`: the screen is pushed and recorded. */
    method PresentPath(v: V)
      modifies this`path, this`record
      ensures State() == PresentedPath(old(State()), v)
    {
      path := path + [v];
      record := record + [v];
    }

    /** `presentSheet`: the screen becomes the sheet and is recorded. */
    method PresentSheet(v: V)
      modifies this`sheet, this`record
      ensures State() == PresentedSheet(old(State()), v)
    {
      sheet := Some(v);
      record := record + [v];
    }

    /**
     * `presentPopover`: handed up the parent chain, so the popover always
     * lands on the root coordinator and no other coordinator changes.
     */
    method PresentPopover(v: V)
      requires Valid()
      modifies Root()`popover
      decreases depth
      ensures Root().popover == Some(v)
      ensures parent.Some? ==> popover == old(popover)
    {
      match parent {
        case None =>
          popover := Some(v);
        case Some(p) =>
          p.PresentPopover(v);
      }
    }

    /** `dismiss`: the popover first, else the sheet, else the top of the path, else nothing. */
    method Dismiss()
      modifies this`path, this`popover, this`record, this`sheet
      ensures State() == Dismissed(old(State()))
    {
      if popover.Some? {
        popover := None;
      } else if sheet.Some? {
        sheet := None;
        record := PopLast(record);
      } else if path != [] {
        path := path[..|path| - 1];
        record := PopLast(record);
      }
    }
  }
}
