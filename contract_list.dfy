/** The contract list: the status and text filter, and the name of the generated contract file. */
module ContractList {
  import opened Seqs
  import opened Text
  import opened Contracts

  /** The status choice: "all", or a lower-case status. */
  predicate MatchesFilter(c: Contract, filter: string)
  {
    filter == "all" || Lower(c.status) == filter
  }

  /** The search box: the term, ignoring case, occurs in the client's name or the product. */
  predicate MatchesSearch(c: Contract, searchTerm: string)
  {
    Contains(Lower(c.clientName), Lower(searchTerm)) || Contains(Lower(c.product), Lower(searchTerm))
  }

  function ListPred(filter: string, searchTerm: string): Contract -> bool
  {
    (c: Contract) => MatchesFilter(c, filter) && MatchesSearch(c, searchTerm)
  }

  /** `filteredContracts`: the contracts passing both tests, in their order. */
  function FilteredContracts(cs: seq<Contract>, filter: string, searchTerm: string): (r: seq<Contract>)
    ensures forall c :: c in r ==> c in cs && MatchesFilter(c, filter) && MatchesSearch(c, searchTerm)
    ensures forall c :: c in cs && MatchesFilter(c, filter) && MatchesSearch(c, searchTerm) ==> c in r
    ensures forall c :: multiset(r)[c] ==
                         if MatchesFilter(c, filter) && MatchesSearch(c, searchTerm) then multiset(cs)[c] else 0
    ensures IsSubsequence(r, cs)
  {
    FilterContents(cs, ListPred(filter, searchTerm));
    Filter(cs, ListPred(filter, searchTerm))
  }

  /** The initial state, "all" and an empty search, lists every contract. */
  lemma InitialListShowsAll(cs: seq<Contract>)
    ensures FilteredContracts(cs, "all", "") == cs
  {
    forall c | c in cs ensures ListPred("all", "")(c) {
      ContainsEmpty(Lower(c.clientName));
    }
    FilterContents(cs, ListPred("all", ""));
  }

  /** Search terms that differ only in letter case list the same contracts. */
  lemma SearchIgnoresCase(cs: seq<Contract>, filter: string, a: string, b: string)
    requires Lower(a) == Lower(b)
    ensures FilteredContracts(cs, filter, a) == FilteredContracts(cs, filter, b)
  {
    FilterCongruence(cs, ListPred(filter, a), ListPred(filter, b));
  }

  /** A search term lists the same contracts as its lower-case form. */
  lemma SearchByLowercase(cs: seq<Contract>, filter: string, term: string)
    ensures FilteredContracts(cs, filter, Lower(term)) == FilteredContracts(cs, filter, term)
  {
    LowerIdempotent(term);
    SearchIgnoresCase(cs, filter, Lower(term), term);
  }

  /** The download name `contrato-<name>.txt`, where only the first space of the client's name
      becomes a hyphen. */
  function DownloadName(c: Contract): (r: string)
    ensures |r| == |c.clientName| + 13
    ensures r[..9] == "contrato-" && r[|r| - 4..] == ".txt"
    ensures forall i :: 0 <= i < |c.clientName| ==>
              r[9 + i] == if i == IndexOf(c.clientName, ' ') then '-' else c.clientName[i]
  {
    "contrato-" + ReplaceFirst(c.clientName, ' ', '-') + ".txt"
  }

  /** Only the first space is replaced: a name with two spaces keeps the second one. */
  lemma DownloadNameKeepsLaterSpaces(c: Contract, i: nat, j: nat)
    requires i < j < |c.clientName| && c.clientName[i] == ' ' && c.clientName[j] == ' '
    ensures DownloadName(c)[9 + j] == ' '
    ensures ' ' !in c.clientName[..i] ==> DownloadName(c)[9 + i] == '-'
  {
  }
}
