/**
 * The tag lists of the new-project page (app/projects/new/page.tsx): the
 * `technologies` and `features` lists, each fed from its own draft field.
 * Adding trims the draft and accepts it only when it is non-empty and not
 * yet listed; removing filters out every entry equal to the given one.
 */
module NewProjectPage {
  import opened Text
  import opened Sequences

  /** The invariant both lists keep: no duplicates, every entry trimmed and non-empty. */
  predicate TagListOk(list: seq<string>) {
    && NoDuplicates(list)
    && forall i :: 0 <= i < |list| ==> list[i] != "" && Trimmed(list[i])
  }

  /** The add handler's guard: the trimmed draft is non-empty and not yet listed (`includes` compares strings by value). */
  predicate Accepts(list: seq<string>, draft: string) {
    Trim(draft) != "" && Trim(draft) !in list
  }

  /** The list and the draft after the add handler runs. */
  function AddTag(list: seq<string>, draft: string): (r: (seq<string>, string))
    ensures Accepts(list, draft) ==> r.0 == list + [Trim(draft)] && r.1 == ""
    ensures !Accepts(list, draft) ==> r == (list, draft)
  {
    var trimmed := Trim(draft);
    if trimmed != "" && trimmed !in list then (list + [trimmed], "") else (list, draft)
  }

  /** The list after the remove handler runs for `tag`: every entry equal to it is dropped, the rest keep their order. */
  function RemoveTag(list: seq<string>, tag: string): (r: seq<string>)
    ensures tag !in r
    ensures forall x :: x in r <==> x in list && x != tag
  {
    Filter(list, x => x != tag)
  }

  /** Adding keeps the list free of duplicates and of untrimmed or empty entries. */
  lemma AddTagKeepsInvariant(list: seq<string>, draft: string)
    requires TagListOk(list)
    ensures TagListOk(AddTag(list, draft).0)
  {
    if Accepts(list, draft) {
      var r := list + [Trim(draft)];
      forall i, j | 0 <= i < j < |r| ensures r[i] != r[j] {
        if j == |list| {
          assert r[i] in list;
        }
      }
    }
  }

  /** Removing keeps the invariant too. */
  lemma RemoveTagKeepsInvariant(list: seq<string>, tag: string)
    requires TagListOk(list)
    ensures TagListOk(RemoveTag(list, tag))
  {
    FilterNoDuplicates(list, x => x != tag);
    var r := RemoveTag(list, tag);
    forall i | 0 <= i < |r| ensures r[i] != "" && Trimmed(r[i]) {
      assert r[i] in list;
    }
  }

  /** Removing a tag that is not listed changes nothing. */
  lemma RemoveAbsentTag(list: seq<string>, tag: string)
    requires tag !in list
    ensures RemoveTag(list, tag) == list
  {
    FilterKeepsAll(list, x => x != tag);
  }

  /** In a list without duplicates, removing the tag at position `k` drops that position alone and keeps the order of the rest. */
  lemma RemoveListedTag(list: seq<string>, k: int)
    requires NoDuplicates(list) && 0 <= k < |list|
    ensures RemoveTag(list, list[k]) == list[..k] + list[k + 1..]
  {
    var t := list[k];
    var before, after := list[..k], list[k + 1..];
    assert list == before + [t] + after;
    forall x | x in before ensures x != t {
      var i :| 0 <= i < |before| && before[i] == x;
      assert list[i] == x;
    }
    forall x | x in after ensures x != t {
      var i :| 0 <= i < |after| && after[i] == x;
      assert list[k + 1 + i] == x;
    }
    FilterConcat(before + [t], after, x => x != t);
    FilterConcat(before, [t], x => x != t);
    FilterKeepsAll(before, x => x != t);
    FilterKeepsAll(after, x => x != t);
    assert Filter([t], x => x != t) == [];
    assert before + [] == before;
  }

  /** Removing what was just added gives the list back: the entries that stay keep their order. */
  lemma RemoveUndoesAdd(list: seq<string>, draft: string)
    requires Accepts(list, draft)
    ensures RemoveTag(AddTag(list, draft).0, Trim(draft)) == list
  {
    var t := Trim(draft);
    FilterConcat(list, [t], x => x != t);
    FilterKeepsAll(list, x => x != t);
    assert Filter([t], x => x != t) == [];
  }

  /** A draft that trims to an already listed entry is refused, so pressing add twice adds once. */
  lemma AddTwiceAddsOnce(list: seq<string>, draft: string)
    requires Accepts(list, draft)
    ensures AddTag(AddTag(list, draft).0, draft) == (list + [Trim(draft)], draft)
  {
  }

  /** The page's form state that the tag handlers touch. */
  class NewProjectForm {
    var technology: string
    var technologies: seq<string>
    var feature: string
    var features: seq<string>

    predicate Valid()
      reads this
    {
      TagListOk(technologies) && TagListOk(features)
    }

    /** The first render: both drafts and both lists empty. */
    constructor ()
      ensures Valid()
      ensures technology == "" && technologies == [] && feature == "" && features == []
    {
      technology := "";
      technologies := [];
      feature := "";
      features := [];
    }

    /** `addTechnology`. */
    method AddTechnology()
      requires Valid()
      modifies this`technologies, this`technology
      ensures Valid()
      ensures (technologies, technology) == AddTag(old(technologies), old(technology))
      ensures features == old(features) && feature == old(feature)
    {
      AddTagKeepsInvariant(technologies, technology);
      ghost var next := AddTag(technologies, technology);
      var trimmed := Trim(technology);
      if trimmed != "" && trimmed !in technologies {
        assert Accepts(technologies, technology);
        technologies := technologies + [trimmed];
        technology := "";
      } else {
        assert !Accepts(technologies, technology);
      }
      assert (technologies, technology) == next;
    }

    /** `removeTechnology(tech)`. */
    method RemoveTechnology(tech: string)
      requires Valid()
      modifies this`technologies
      ensures Valid()
      ensures technologies == RemoveTag(old(technologies), tech)
      ensures technology == old(technology) && features == old(features) && feature == old(feature)
    {
      RemoveTagKeepsInvariant(technologies, tech);
      technologies := RemoveTag(technologies, tech);
    }

    /** `addFeature`. */
    method AddFeature()
      requires Valid()
      modifies this`features, this`feature
      ensures Valid()
      ensures (features, feature) == AddTag(old(features), old(feature))
      ensures technologies == old(technologies) && technology == old(technology)
    {
      AddTagKeepsInvariant(features, feature);
      ghost var next := AddTag(features, feature);
      var trimmed := Trim(feature);
      if trimmed != "" && trimmed !in features {
        assert Accepts(features, feature);
        features := features + [trimmed];
        feature := "";
      } else {
        assert !Accepts(features, feature);
      }
      assert (features, feature) == next;
    }

    /** `removeFeature(feat)`. */
    method RemoveFeature(feat: string)
      requires Valid()
      modifies this`features
      ensures Valid()
      ensures features == RemoveTag(old(features), feat)
      ensures feature == old(feature) && technologies == old(technologies) && technology == old(technology)
    {
      RemoveTagKeepsInvariant(features, feat);
      features := RemoveTag(features, feat);
    }
  }
}
