/**
 The searchable client list screen (`ClientList`, held in
 components/components/components/ClientList.tsx): the search filter and the
 choice between the card grid and the empty-result panel.
 */
module ClientList {
  import opened Types
  import opened Text
  import opened Seqs

  /** The search predicate: the query occurs in the lower-cased name (the query
      lower-cased too), or the raw query occurs in the phone number. */
  predicate Matches(c: Client, query: string)
  {
    Includes(Lower(c.name), Lower(query)) || Includes(c.phoneNumber, query)
  }

  function Matcher(query: string): Client -> bool
  {
    c => Matches(c, query)
  }

  /** `filteredClients`: the clients that match, in collection order. */
  function Filter(clients: seq<Client>, query: string): (r: seq<Client>)
    ensures IsSubsequence(r, clients)
    ensures forall c :: c in r <==> c in clients && Matches(c, query)
    ensures forall c :: multiset(r)[c] == if Matches(c, query) then multiset(clients)[c] else 0
  {
    KeepIsSubsequence(clients, Matcher(query));
    KeepCounts(clients, Matcher(query));
    Keep(clients, Matcher(query))
  }

  /** The empty search box shows the whole collection, in order. */
  lemma FilterEmptyQuery(clients: seq<Client>)
    ensures Filter(clients, "") == clients
  {
    forall c | c in clients
      ensures Matches(c, "")
    {
      IncludesEmpty(c.phoneNumber);
    }
    KeepAll(clients, Matcher(""));
  }

  /** Searching the search result again with the same query changes nothing. */
  lemma FilterIdempotent(clients: seq<Client>, query: string)
    ensures Filter(Filter(clients, query), query) == Filter(clients, query)
  {
    KeepIdempotent(clients, Matcher(query));
  }

  /** The name side ignores ASCII case, for every name and query: replacing
      either by a case variant does not change whether the name matches. */
  lemma NameSideIgnoresCase(name: string, name': string, query: string, query': string)
    requires SameUpToCase(name, name') && SameUpToCase(query, query')
    ensures Includes(Lower(name), Lower(query)) == Includes(Lower(name'), Lower(query'))
  {
    LowerFoldsCase(name, name');
    LowerFoldsCase(query, query');
  }

  /** A query that spells a stretch of a client's name, in any mix of cases,
      finds that client. */
  lemma CaseVariantOfNameFinds(clients: seq<Client>, c: Client, query: string, i: int)
    requires c in clients && 0 <= i && i + |query| <= |c.name|
    requires SameUpToCase(query, c.name[i..i + |query|])
    ensures c in Filter(clients, query)
  {
    LowerFoldsCase(query, c.name[i..i + |query|]);
    assert Lower(c.name)[i..i + |query|] == Lower(c.name[i..i + |query|]);
    assert OccursAt(Lower(c.name), Lower(query), i);
  }

  /** An example: an upper-case query finds a mixed-case name. */
  lemma NameMatchIgnoresCase()
    ensures Matches(Client("c1", "Ali Rezaei", "0912", Measurements("80", "", "", "", "", "", ""), 0), "ALI")
  {
  }

  /** The phone side is not case-folded: with a name that cannot match, the
      phone "x12" is found by "x1" but not by "X1". */
  lemma PhoneMatchKeepsCase()
    ensures Matches(Client("c2", "Sara", "x12", Measurements("80", "", "", "", "", "", ""), 0), "x1")
    ensures !Matches(Client("c2", "Sara", "x12", Measurements("80", "", "", "", "", "", ""), 0), "X1")
  {
    assert Lower("Sara") == "sara";
    assert Lower("X1") == "x1";
    assert Lower("x1") == "x1";
    assert "x12"[..2] == "x1";
    forall i
      ensures !OccursAt("sara", "x1", i)
    {
      if 0 <= i <= 2 {
        assert "sara"[i..i + 2][0] == "sara"[i] != 'x';
      }
    }
    forall i
      ensures !OccursAt("x12", "X1", i)
    {
      if 0 <= i <= 1 {
        assert "x12"[i..i + 2][0] == "x12"[i] != 'X';
      }
    }
  }

  /** What the list screen shows below the search bar. */
  datatype Panel =
    | NotFound(firstClientHint: bool)  // "no client found", with the "add your first client" line or not
    | Cards(shown: seq<Client>)

  function Render(clients: seq<Client>, query: string): (r: Panel)
    ensures r.NotFound? <==> forall c :: c in clients ==> !Matches(c, query)
    ensures r.NotFound? ==> (r.firstClientHint <==> |clients| == 0)
    ensures |clients| == 0 ==> r == NotFound(true)
    ensures r.Cards? ==> |r.shown| > 0 && r.shown == Filter(clients, query)
  {
    var shown := Filter(clients, query);
    if |shown| == 0 then NotFound(|clients| == 0) else Cards(shown)
  }

}
