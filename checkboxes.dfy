/**
 * Visibility of the nested option labels on the options page. Each label
 * carries a hierarchy level (`parseInt` of `data-level`, `None` when that
 * is `NaN`), may hold a checkbox, and has a current `style.display`. The
 * page is abstracted to that sequence of labels and an array of display
 * values updated in place.
 */
module Checkboxes {
  import opened Wrappers

  /** One `.checkbox-text` container. */
  datatype Label = Label(level: Option<int>, hasCheckbox: bool, checked: bool)

  /** Hidden by the first pass: a numeric level deeper than 1. */
  predicate Deep(l: Label)
  {
    l.level.Some? && l.level.value > 1
  }

  /** A label that opens a forward scan: it has a checkbox that is checked and a numeric level. */
  predicate Parent(l: Label)
  {
    l.hasCheckbox && l.level.Some? && l.checked
  }

  /**
   * The parent at `p` shows the label at `c`: `c` is one level deeper than
   * `p`, and no label with a numeric level between them is at `p`'s level
   * or shallower (labels without a numeric level are skipped).
   */
  predicate Reveals(labels: seq<Label>, p: int, c: int)
  {
    0 <= p < c < |labels| && Parent(labels[p]) &&
    labels[c].level == Some(labels[p].level.value + 1) &&
    forall m :: p < m < c ==> labels[m].level.None? || labels[m].level.value > labels[p].level.value
  }

  /** Some parent before `bound` shows the label at `c`. */
  predicate RevealedBy(labels: seq<Label>, bound: int, c: int)
  {
    exists p :: 0 <= p < bound && Reveals(labels, p, c)
  }

  predicate Revealed(labels: seq<Label>, c: int)
  {
    RevealedBy(labels, |labels|, c)
  }

  /** What the first pass leaves at `k`. */
  function AfterHiding(labels: seq<Label>, prior: seq<string>, k: int): string
    requires |prior| == |labels| && 0 <= k < |labels|
  {
    if Deep(labels[k]) then "none" else prior[k]
  }

  /** The display of every label once `updateVisibility` has run. */
  function Visibility(labels: seq<Label>, prior: seq<string>): (r: seq<string>)
    requires |prior| == |labels|
    ensures |r| == |labels|
  {
    seq(|labels|, k requires 0 <= k < |labels| =>
      if Revealed(labels, k) then "flex" else AfterHiding(labels, prior, k))
  }

  /** `updateVisibility`: hide every deep label, then show the direct children of each checked parent. */
  method UpdateVisibility(labels: seq<Label>, display: array<string>)
    requires display.Length == |labels|
    modifies display
    ensures display[..] == Visibility(labels, old(display[..]))
  {
    ghost var prior := display[..];
    var n := display.Length;
    for k := 0 to n
      invariant forall j :: 0 <= j < k ==> display[j] == AfterHiding(labels, prior, j)
      invariant forall j :: k <= j < n ==> display[j] == prior[j]
    {
      if labels[k].level.Some? && labels[k].level.value > 1 {
        display[k] := "none";
      }
    }
    for index := 0 to n
      invariant forall j :: 0 <= j < n ==>
        display[j] == if RevealedBy(labels, index, j) then "flex" else AfterHiding(labels, prior, j)
    {
      var entry := labels[index];
      if entry.hasCheckbox && entry.level.Some? && entry.checked {
        var current := entry.level.value;
        var i := index + 1;
        while i < n
          invariant index + 1 <= i <= n
          invariant forall m :: index < m < i ==> labels[m].level.None? || labels[m].level.value > current
          invariant forall j :: 0 <= j < n ==>
            display[j] == if RevealedBy(labels, index, j) || (j < i && Reveals(labels, index, j)) then "flex"
                          else AfterHiding(labels, prior, j)
        {
          var childLevel := labels[i].level;
          if childLevel.Some? {
            if childLevel.value <= current {
              ScanStops(labels, index, i);
              break;
            }
            if childLevel.value == current + 1 {
              assert Reveals(labels, index, i);
              display[i] := "flex";
            }
          }
          i := i + 1;
        }
        forall j | 0 <= j < n ensures RevealedBy(labels, index + 1, j) <==> RevealedBy(labels, index, j) || Reveals(labels, index, j) {
          RevealedByStep(labels, index, j);
        }
      } else {
        forall j | 0 <= j < n ensures RevealedBy(labels, index + 1, j) <==> RevealedBy(labels, index, j) {
          RevealedByStep(labels, index, j);
        }
      }
    }
    assert display[..] == Visibility(labels, prior);
  }

  /** Widening the bound by one adds exactly the parent at the old bound. */
  lemma RevealedByStep(labels: seq<Label>, index: int, j: int)
    requires 0 <= index
    ensures RevealedBy(labels, index + 1, j) <==> RevealedBy(labels, index, j) || Reveals(labels, index, j)
  {
    if RevealedBy(labels, index + 1, j) {
      var p :| 0 <= p < index + 1 && Reveals(labels, p, j);
      if p < index {
        assert RevealedBy(labels, index, j);
      }
    }
  }

  /** The scan of the parent at `p` ends at the first numeric level no deeper than its own: nothing from there on is shown by it. */
  lemma ScanStops(labels: seq<Label>, p: int, i: int)
    requires 0 <= p < i < |labels| && labels[i].level.Some? && labels[p].level.Some?
    requires labels[i].level.value <= labels[p].level.value
    ensures forall c :: i <= c < |labels| ==> !Reveals(labels, p, c)
  {
  }

  // ---------------------------------------------------------------------
  // Properties

  /** Running the update a second time changes nothing. */
  lemma VisibilityIdempotent(labels: seq<Label>, prior: seq<string>)
    requires |prior| == |labels|
    ensures Visibility(labels, Visibility(labels, prior)) == Visibility(labels, prior)
  {
  }

  /** Labels whose level is not numeric or at most 1 are never hidden: they are shown or keep their display. */
  lemma ShallowNeverHidden(labels: seq<Label>, prior: seq<string>, k: int)
    requires |prior| == |labels| && 0 <= k < |labels| && !Deep(labels[k])
    ensures Visibility(labels, prior)[k] == "flex" || Visibility(labels, prior)[k] == prior[k]
  {
  }

  /** A deep label ends shown exactly when some parent reveals it, hidden otherwise, whatever it showed before. */
  lemma DeepLabelVisibility(labels: seq<Label>, prior: seq<string>, k: int)
    requires |prior| == |labels| && 0 <= k < |labels| && Deep(labels[k])
    ensures Visibility(labels, prior)[k] == "flex" <==> Revealed(labels, k)
    ensures Visibility(labels, prior)[k] == "none" <==> !Revealed(labels, k)
  {
  }

  /** For deep labels the outcome depends only on the levels and checkboxes, not on the prior display. */
  lemma PriorIrrelevantWhenDeep(labels: seq<Label>, prior1: seq<string>, prior2: seq<string>, k: int)
    requires |prior1| == |labels| && |prior2| == |labels| && 0 <= k < |labels| && Deep(labels[k])
    ensures Visibility(labels, prior1)[k] == Visibility(labels, prior2)[k]
  {
  }

  /** At most one parent reveals a label: the nearest earlier label one level up. */
  lemma RevealingParentUnique(labels: seq<Label>, p1: int, p2: int, c: int)
    requires Reveals(labels, p1, c) && Reveals(labels, p2, c)
    ensures p1 == p2
  {
  }

  /** A checked parent reveals direct children only, never a label two levels down. */
  lemma OnlyDirectChildren(labels: seq<Label>, p: int, c: int)
    requires 0 <= p < c < |labels| && Parent(labels[p]) && labels[c].level.Some?
    requires labels[c].level.value != labels[p].level.value + 1
    ensures !Reveals(labels, p, c)
  {
  }

  /** A label without a checkbox, unchecked, or without a numeric level reveals nothing. */
  lemma NonParentRevealsNothing(labels: seq<Label>, p: int, c: int)
    requires 0 <= p < |labels| && !Parent(labels[p])
    ensures !Reveals(labels, p, c)
  {
  }

  /** A label without a numeric level does not stop the scan of the parent before it. */
  lemma UnleveledDoesNotStop(labels: seq<Label>, p: int, m: int, c: int)
    requires 0 <= p < m < c < |labels| && labels[m].level.None? && Parent(labels[p])
    requires labels[c].level == Some(labels[p].level.value + 1)
    requires forall k :: p < k < c && k != m ==> labels[k].level.None? || labels[k].level.value > labels[p].level.value
    ensures Reveals(labels, p, c)
  {
  }

  /**
   * A checked top-level label shows its two direct children but not the
   * grandchild under an unchecked child; the next top-level label ends its
   * scan, so the child under that unchecked label stays hidden.
   */
  lemma SamplePage()
    ensures Visibility(SampleLabels, ["flex", "flex", "flex", "flex", "flex", "flex"])
         == ["flex", "flex", "none", "flex", "flex", "none"]
  {
    var labels := SampleLabels;
    assert Reveals(labels, 0, 1);
    assert Reveals(labels, 0, 3);
    forall p ensures !Reveals(labels, p, 2) {
    }
    forall p ensures !Reveals(labels, p, 5) {
      if 0 <= p < 5 && p != 4 && Parent(labels[p]) {
        assert labels[4].level.value <= labels[p].level.value;
      }
    }
    assert !Revealed(labels, 2) && !Revealed(labels, 5);
    assert Revealed(labels, 1) && Revealed(labels, 3);
  }

  const SampleLabels: seq<Label> := [
    Label(Some(1), true, true),
    Label(Some(2), true, false),
    Label(Some(3), true, false),
    Label(Some(2), true, false),
    Label(Some(1), true, false),
    Label(Some(2), true, false)]
}
