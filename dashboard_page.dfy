/**
 * The dashboard: one card per stored presentation, and the creation of a
 * new presentation under the next id.
 */
module DashboardPage {
  import opened Wrappers
  import opened Document
  import opened Store
  import opened Navigator

  /** The address of the placeholder image bundled with the application. */
  const PLACEHOLDER_THUMBNAIL: string := "empty.jpg"

  /** The presentation `createPresentation` stores. */
  function NewPresentation(name: string, description: string): (p: Presentation)
    ensures p.presName == name && p.description == description && p.thumbnail == PLACEHOLDER_THUMBNAIL
    ensures |p.slides| == 1 && p.slides[0].background == DEFAULT_BACKGROUND && p.slides[0].obj == []
  {
    Presentation(name, PLACEHOLDER_THUMBNAIL, description, [NewSlide()])
  }

  /** What a card shows of a presentation. */
  datatype Summary = Summary(name: string, thumbnail: string, description: string, slides: nat)

  function Summarise(p: Presentation): (s: Summary)
    ensures s.slides == |p.slides|
  {
    Summary(p.presName, p.thumbnail, p.description, |p.slides|)
  }

  /** The card list: one summary per stored presentation, in id order. */
  function Summaries(c: Collection): (r: seq<Summary>)
    requires Contiguous(c)
    ensures |r| == |c|
    ensures forall i :: 0 <= i < |r| ==> Id(i + 1) in c && r[i] == Summarise(c[Id(i + 1)])
  {
    var values := Values(c);
    seq(|values|, i requires 0 <= i < |values| => Summarise(values[i]))
  }

  /** The link of the card at position `i`: `/presentation/{i+1}/1`. */
  function CardRoute(i: nat): (r: Route)
    ensures r.EditorRoute? && r.key == i + 1 && InitialIndex(r.slide) == Some(0)
  {
    FirstSegmentIsFirstSlide();
    EditorRoute(i + 1, "1")
  }

  /** The card at position `i` opens the first slide of the presentation it summarises. */
  lemma CardOpensItsPresentation(c: Collection, i: nat)
    requires Contiguous(c) && i < |c|
    ensures Id(CardRoute(i).key) in c
    ensures Summaries(c)[i] == Summarise(c[Id(CardRoute(i).key)])
    ensures InitialIndex(CardRoute(i).slide) == Some(0)
  {
    FirstSegmentIsFirstSlide();
  }

  class Dashboard {
    var store: Collection

    constructor (store: Collection)
      ensures this.store == store
    {
      this.store := store;
    }

    /** Stores a new presentation under `Object.keys(store).length + 1`; on a store
        whose ids have a gap that id may already be taken, and its entry is replaced. */
    method CreatePresentation(name: string, description: string) returns (presId: int, saved: Collection)
      modifies this
      ensures presId == |old(store)| + 1
      ensures store == old(store)[Id(presId) := NewPresentation(name, description)]
      ensures Contiguous(old(store)) ==> Contiguous(store) && |store| == |old(store)| + 1
      ensures Contiguous(old(store)) ==> forall k :: k in old(store) ==> k in store && store[k] == old(store)[k]
      ensures saved == store
    {
      presId := |store.Keys| + 1;
      var presentation := NewPresentation(name, description);
      if Contiguous(store) {
        InsertNextKeepsContiguous(store, presentation);
      }
      store := store[Id(presId) := presentation];
      saved := store;
    }
  }

  /** The first presentation created on an empty store is reached at `/presentation/1/1`. */
  lemma FirstPresentationIsCardOne(name: string, description: string)
    ensures var c: Collection := map[Id(1) := NewPresentation(name, description)];
            Contiguous(c) && CardRoute(0) == EditorRoute(1, "1") && Summaries(c)[0] == Summarise(NewPresentation(name, description))
  {
    var empty: Collection := map[];
    assert Contiguous(empty);
    InsertNextKeepsContiguous(empty, NewPresentation(name, description));
    assert empty[Id(1) := NewPresentation(name, description)] == map[Id(1) := NewPresentation(name, description)];
  }

  /** Once a `"null"` entry sits beside ids `1..n`, the next presentation is created under
      `n + 2`: id `n + 1` stays free, so the collection is no longer keyed `1..n+1`. */
  lemma CreateAfterNullKey(c: Collection, p: Presentation, name: string, description: string)
    requires Contiguous(c)
    ensures var withNull := c[NullKey := p];
            var created := withNull[Id(|withNull| + 1) := NewPresentation(name, description)];
            && |withNull| + 1 == |c| + 2
            && Id(|c| + 1) !in created
            && !Contiguous(created)
  {
    SaveUnderNullKey(c, p);
    var withNull := c[NullKey := p];
    var created := withNull[Id(|withNull| + 1) := NewPresentation(name, description)];
    assert NullKey in created && NullKey !in KeyRange(|created|);
  }
}
