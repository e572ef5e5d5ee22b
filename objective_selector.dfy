/** The learning-objective picker (`ObjectiveSelector.tsx`): which
    objectives show as selected, and the set of ids whose definitions are
    expanded, toggled by copying the set and changing the copy. */
module ObjectiveSelector {

  datatype LearningObjective = LearningObjective(id: string, title: string, description: string)

  /** A JavaScript `Set<string>` of objective ids, changed in place. */
  class IdSet {
    var elems: set<string>

    constructor Empty()
      ensures elems == {}
    {
      elems := {};
    }

    /** `new Set(other)`. */
    constructor Copy(other: IdSet)
      ensures elems == other.elems
    {
      elems := other.elems;
    }

    predicate Has(id: string)
      reads this
    {
      id in elems
    }

    method Add(id: string)
      modifies this
      ensures elems == old(elems) + {id}
    {
      elems := elems + {id};
    }

    method Delete(id: string)
      modifies this
      ensures elems == old(elems) - {id}
    {
      elems := elems - {id};
    }
  }

  /** The set `toggleDescription` stores: `id` flipped, every other id as
      it was. */
  function Toggled(s: set<string>, id: string): (r: set<string>)
    ensures id in r <==> id !in s
    ensures forall other | other != id :: other in r <==> other in s
  {
    if id in s then s - {id} else s + {id}
  }

  /** Toggling the same id twice restores the set. */
  lemma ToggledTwice(s: set<string>, id: string)
    ensures Toggled(Toggled(s, id), id) == s
  {
  }

  /** Toggling two different ids commutes. */
  lemma ToggledCommutes(s: set<string>, a: string, b: string)
    ensures Toggled(Toggled(s, a), b) == Toggled(Toggled(s, b), a)
  {
  }

  /** `selectedObjectives.some(o => o.id === objective.id)`. */
  function AnySameId(selected: seq<LearningObjective>, id: string): (b: bool)
    ensures b <==> exists i | 0 <= i < |selected| :: selected[i].id == id
  {
    if selected == [] then false
    else selected[0].id == id || AnySameId(selected[1..], id)
  }

  /** What one objective card shows. */
  datatype CardView = CardView(title: string, selected: bool, description: string, expanded: bool)

  function Card(objective: LearningObjective, selected: seq<LearningObjective>, expanded: set<string>): (v: CardView)
    ensures v.title == objective.title && v.description == objective.description
    ensures v.selected <==> exists i | 0 <= i < |selected| :: selected[i].id == objective.id
    ensures v.expanded <==> objective.id in expanded
  {
    CardView(objective.title, AnySameId(selected, objective.id), objective.description, objective.id in expanded)
  }

  /** Selection goes by id: a selected copy whose title or description
      differ still marks the card selected. */
  lemma SelectionById(objective: LearningObjective, other: LearningObjective, expanded: set<string>)
    requires other.id == objective.id
    ensures Card(objective, [other], expanded).selected
  {
  }

  class Selector {
    var expandedIds: IdSet

    constructor()
      ensures expandedIds.elems == {}
    {
      expandedIds := new IdSet.Empty();
    }

    /** `toggleDescription`: a fresh copy of the expanded set with `id`
        flipped replaces the old set, which itself is left as it was. */
    method ToggleDescription(id: string)
      modifies this
      ensures fresh(expandedIds)
      ensures expandedIds.elems == Toggled(old(expandedIds.elems), id)
      ensures old(expandedIds).elems == old(expandedIds.elems)
    {
      var newSet := new IdSet.Copy(expandedIds);
      if newSet.Has(id) {
        newSet.Delete(id);
      } else {
        newSet.Add(id);
      }
      expandedIds := newSet;
    }
  }

  /** Clicking the chevron twice closes what it opened, and the sets the
      earlier renders held are never changed. */
  method ToggleTwice(selector: Selector, id: string) returns (first: IdSet, second: IdSet)
    modifies selector
    ensures first == old(selector.expandedIds) && second == selector.expandedIds
    ensures first.elems == old(selector.expandedIds.elems)
    ensures second.elems == first.elems
  {
    first := selector.expandedIds;
    selector.ToggleDescription(id);
    selector.ToggleDescription(id);
    second := selector.expandedIds;
    ToggledTwice(first.elems, id);
  }
}
