/** `src/components/Sidebar.jsx`: the sale-type and market pills. Each
    section edits one list of the feed's filter record through `update`;
    `'all'` clears the list, any other pill adds or removes its value. */
module Sidebar {
  import opened Base
  import opened Queries
  import opened FilterState

  /** The two pill sections and the list each one edits. */
  datatype Section = SaleTypePills | MarketPills

  function KeyOf(section: Section): (k: FilterKey)
    ensures k == SaleTypesKey || k == SaleSequencesKey
  {
    match section
    case SaleTypePills => SaleTypesKey
    case MarketPills => SaleSequencesKey
  }

  function ListOf(f: FilterRecord, section: Section): (xs: seq<string>)
    ensures Get(f, KeyOf(section)) == ListValue(xs)
  {
    match section
    case SaleTypePills => f.saleTypes
    case MarketPills => f.saleSequences
  }

  /** `v => v !== opt`. */
  function IsNot(opt: string): string -> bool {
    (v: string) => v != opt
  }

  /** The pill's `active` flag: `'all'` while the list is empty, any other
      option while the list includes it. */
  predicate Active(list: seq<string>, opt: string) {
    if opt == "all" then |list| == 0 else opt in list
  }

  /** The list a click on `opt` computes: empty for `'all'`; otherwise
      every occurrence of a present `opt` removed, others kept in order, or
      an absent `opt` appended at the end. */
  function Toggle(list: seq<string>, opt: string): (r: seq<string>)
    ensures opt == "all" ==> r == []
    ensures opt != "all" && opt in list ==> opt !in r && (forall x :: x in r <==> x in list && x != opt) && IsSubseq(r, list)
    ensures opt != "all" && opt in list ==> forall x :: multiset(r)[x] == if x != opt then multiset(list)[x] else 0
    ensures opt != "all" && opt !in list ==> |r| == |list| + 1 && r[..|list|] == list && r[|list|] == opt
  {
    if opt == "all" then []
    else if opt in list then FilterCount(list, IsNot(opt)); Filter(list, IsNot(opt))
    else list + [opt]
  }

  /** A click on a pill flips that pill, and a click on `'all'` turns
      `'all'` on. */
  lemma ToggleFlips(list: seq<string>, opt: string)
    ensures opt != "all" ==> (Active(Toggle(list, opt), opt) <==> !Active(list, opt))
    ensures Active(Toggle(list, "all"), "all")
  {
    if opt != "all" && opt !in list {
      assert Toggle(list, opt)[|list|] == opt;
    }
  }

  /** Choosing an option switches `'all'` off. */
  lemma ChoosingLeavesAll(list: seq<string>, opt: string)
    requires opt != "all" && opt !in list
    ensures !Active(Toggle(list, opt), "all")
  {
  }

  /** Two clicks on an option the list lacks give the list back. */
  lemma ToggleTwice(list: seq<string>, opt: string)
    requires opt != "all" && opt !in list
    ensures Toggle(Toggle(list, opt), opt) == list
  {
    var once := list + [opt];
    assert Toggle(list, opt) == once;
    assert opt in once;
    FilterAppend(list, [opt], IsNot(opt));
    FilterAll(list, IsNot(opt));
    assert Filter([opt], IsNot(opt)) == [];
  }

  /** The `onClick` of a pill: `update(key, next)` with the toggled list.
      Only that section's list changes. */
  function Click(f: FilterRecord, section: Section, opt: string): (r: FilterRecord)
    ensures ListOf(r, section) == Toggle(ListOf(f, section), opt)
    ensures forall k :: k != KeyOf(section) ==> Get(r, k) == Get(f, k)
    ensures r.projects == f.projects
  {
    Update(f, KeyOf(section), ListValue(Toggle(ListOf(f, section), opt)))
  }

  /** A click on an `'all'` pill clears only its own list: the other
      section keeps its choices. */
  lemma AllClearsOneSection(f: FilterRecord, section: Section)
    ensures ListOf(Click(f, section, "all"), section) == []
    ensures section == SaleTypePills ==> Click(f, section, "all").saleSequences == f.saleSequences
    ensures section == MarketPills ==> Click(f, section, "all").saleTypes == f.saleTypes
  {
    var r := Click(f, section, "all");
    assert Get(r, SaleSequencesKey) == Get(f, SaleSequencesKey) || section == MarketPills;
    assert Get(r, SaleTypesKey) == Get(f, SaleTypesKey) || section == SaleTypePills;
  }
}
