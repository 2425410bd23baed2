/** The client's column store (client/src/stores/column.ts): the columns
    of the open board, kept sorted by position by every action that adds
    or replaces one. */
module ClientColumnStore {
  import opened Common
  import Seqs

  const ByPosition: Column -> int := (c: Column) => c.position

  predicate NotId(c: Column, id: ColumnId)
  {
    c.id != id
  }

  /** `setColumns(cs)`: the given columns, sorted by position. */
  function SetColumns(cs: seq<Column>): (r: seq<Column>)
    ensures Seqs.SortedBy(r, ByPosition) && multiset(r) == multiset(cs)
  {
    Seqs.SortBy(cs, ByPosition)
  }

  /** `addColumn(c)`: the list gains exactly c and stays sorted. */
  function AddColumn(cs: seq<Column>, c: Column): (r: seq<Column>)
    ensures |r| == |cs| + 1
    ensures Seqs.SortedBy(r, ByPosition) && multiset(r) == multiset(cs) + multiset{c}
  {
    Seqs.SortBy(cs + [c], ByPosition)
  }

  predicate SameId(x: Column, c: Column)
  {
    x.id == c.id
  }

  /** `map(x => x.id === c.id ? c : x)`: each column with c's id becomes c
      in its place; the others stay where they are. */
  function ReplaceById(cs: seq<Column>, c: Column): (r: seq<Column>)
    ensures |r| == |cs|
    ensures forall i :: 0 <= i < |cs| ==> r[i] == if cs[i].id == c.id then c else cs[i]
  {
    Seqs.Replace(cs, (x: Column) => SameId(x, c), c)
  }

  /** `updateColumn(c)`: the columns with c's id are replaced by c and the
      list is sorted again; every other column stays, nothing is added,
      and c appears exactly when some column had its id. */
  function UpdateColumn(cs: seq<Column>, c: Column): (r: seq<Column>)
    ensures |r| == |cs| && Seqs.SortedBy(r, ByPosition)
    ensures forall x :: x in cs && x.id != c.id ==> x in r
    ensures forall x :: x in r ==> x == c || (x in cs && x.id != c.id)
    ensures c in r <==> exists i :: 0 <= i < |cs| && cs[i].id == c.id
    ensures multiset(r) == multiset(ReplaceById(cs, c))
  {
    var replaced := ReplaceById(cs, c);
    Seqs.ReplaceMembers(cs, (x: Column) => SameId(x, c), c);
    var r := Seqs.SortBy(replaced, ByPosition);
    assert forall x :: x in r <==> x in multiset(r);
    assert forall x :: x in replaced <==> x in multiset(replaced);
    r
  }

  /** An update whose id no column has only re-sorts the list: its
      contents stay the same. */
  lemma UpdateAbsentKeepsContent(cs: seq<Column>, c: Column)
    requires forall i :: 0 <= i < |cs| ==> cs[i].id != c.id
    ensures multiset(UpdateColumn(cs, c)) == multiset(cs)
  {
    Seqs.ReplaceNone(cs, (x: Column) => SameId(x, c), c);
  }

  /** `deleteColumn(id)`: exactly the columns with another id remain, in
      their order, and the list stays sorted; deleting twice is deleting
      once. */
  function DeleteColumn(cs: seq<Column>, id: ColumnId): (r: seq<Column>)
    ensures |r| <= |cs|
  {
    Seqs.Filter(cs, (c: Column) => NotId(c, id))
  }

  lemma DeleteColumnEffect(cs: seq<Column>, id: ColumnId)
    ensures forall x :: x in DeleteColumn(cs, id) <==> x in cs && x.id != id
    ensures DeleteColumn(DeleteColumn(cs, id), id) == DeleteColumn(cs, id)
    ensures Seqs.SortedBy(cs, ByPosition) ==> Seqs.SortedBy(DeleteColumn(cs, id), ByPosition)
  {
    var keep := (c: Column) => NotId(c, id);
    Seqs.FilterMembers(cs, keep);
    Seqs.FilterIdempotent(cs, keep);
    if Seqs.SortedBy(cs, ByPosition) {
      FilterKeepsSorted(cs, keep);
    }
  }

  /** Dropping columns from a sorted list leaves it sorted. */
  lemma {:induction false} FilterKeepsSorted(cs: seq<Column>, keep: Column -> bool)
    requires Seqs.SortedBy(cs, ByPosition)
    ensures Seqs.SortedBy(Seqs.Filter(cs, keep), ByPosition)
  {
    if cs != [] {
      FilterKeepsSorted(cs[1..], keep);
      var r := Seqs.Filter(cs[1..], keep);
      Seqs.FilterMembers(cs[1..], keep);
      assert forall x :: x in r ==> x in cs[1..];
      assert forall x :: x in cs[1..] ==> cs[0].position <= x.position;
    }
  }
}
