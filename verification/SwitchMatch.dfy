/** Which Switch a ZTP request belongs to: the one whose configured source address is the client's. */
module SwitchMatch {
  import opened Text

  /** A Switch as far as the search sees it; `source` is absent without a ZTP section. */
  datatype Candidate = Candidate(name: string, source: Option<string>)

  /** The outcomes of the search. */
  datatype Found = Match(item: Candidate) | BadClient | ListFailed | BadAddress(name: string) | Multiple | NoMatch

  /** Reading an address; the grammar is left to `netip`. */
  type Parser<!A> = string -> Option<A>

  predicate Parses<A>(c: Candidate, parse: Parser<A>) {
    c.source.Some? ==> parse(c.source.value).Some?
  }

  predicate AllParse<A>(items: seq<Candidate>, parse: Parser<A>) {
    forall i :: 0 <= i < |items| ==> Parses(items[i], parse)
  }

  predicate Claims<A(==)>(c: Candidate, addr: A, parse: Parser<A>) {
    c.source.Some? && parse(c.source.value) == Some(addr)
  }

  /** Exactly one entry claims the address, and it is entry `i`. */
  predicate OnlyClaim<A(==)>(items: seq<Candidate>, addr: A, parse: Parser<A>, i: int) {
    && 0 <= i < |items| && Claims(items[i], addr, parse)
    && (forall j :: 0 <= j < |items| && Claims(items[j], addr, parse) ==> j == i)
  }

  predicate Unparsed<A>(items: seq<Candidate>, parse: Parser<A>, name: string) {
    exists i :: 0 <= i < |items| && items[i].name == name && !Parses(items[i], parse)
  }

  predicate ClaimedTwice<A(==)>(items: seq<Candidate>, addr: A, parse: Parser<A>) {
    exists i, j :: 0 <= i < j < |items| && Claims(items[i], addr, parse) && Claims(items[j], addr, parse)
  }

  /** Every configured address parses, and `c` is the one entry that claims the address. */
  ghost predicate Designates<A>(items: seq<Candidate>, addr: A, parse: Parser<A>, c: Candidate) {
    AllParse(items, parse) && exists i :: OnlyClaim(items, addr, parse, i) && items[i] == c
  }

  /** `matchingSwitch`. It succeeds if and only if the client's address is readable, the list is available, every
      configured address parses and exactly one of them is the client's; the answer is that Switch. */
  method MatchingSwitch<A(==)>(remote: Option<A>, listed: Option<seq<Candidate>>, parse: Parser<A>) returns (r: Found)
    ensures r.BadClient? <==> remote.None?
    ensures r.ListFailed? <==> remote.Some? && listed.None?
    ensures r.Match? <==> remote.Some? && listed.Some? && exists c :: Designates(listed.value, remote.value, parse, c)
    ensures r.Match? ==> Designates(listed.value, remote.value, parse, r.item)
    ensures r.NoMatch? <==> (remote.Some? && listed.Some? && AllParse(listed.value, parse)
                             && forall i :: 0 <= i < |listed.value| ==> !Claims(listed.value[i], remote.value, parse))
    ensures r.BadAddress? ==> listed.Some? && Unparsed(listed.value, parse, r.name)
    ensures r.Multiple? ==> remote.Some? && listed.Some? && ClaimedTwice(listed.value, remote.value, parse)
  {
    if remote.None? {
      return BadClient;
    }
    var addr := remote.value;
    if listed.None? {
      return ListFailed;
    }
    var items := listed.value;
    var matched: Option<nat> := None;
    for i := 0 to |items|
      invariant AllParse(items[..i], parse)
      invariant matched.None? ==> forall j :: 0 <= j < i ==> !Claims(items[j], addr, parse)
      invariant matched.Some? ==> matched.value < i && OnlyClaim(items[..i], addr, parse, matched.value)
    {
      var source := items[i].source;
      if source.None? {
        continue;
      }
      var configured := parse(source.value);
      if configured.None? {
        return BadAddress(items[i].name);
      }
      if configured.value != addr {
        continue;
      }
      if matched.Some? {
        assert Claims(items[matched.value], addr, parse) && Claims(items[i], addr, parse);
        return Multiple;
      }
      matched := Some(i);
    }
    assert items[..|items|] == items;
    if matched.None? {
      return NoMatch;
    }
    assert OnlyClaim(items, addr, parse, matched.value);
    assert Designates(items, addr, parse, items[matched.value]);
    return Match(items[matched.value]);
  }

  // ---------- the order of the list does not matter ----------

  /** The entries that claim the address. */
  function Claiming<A(==)>(items: seq<Candidate>, addr: A, parse: Parser<A>): seq<Candidate> {
    if items == [] then []
    else (if Claims(items[0], addr, parse) then [items[0]] else []) + Claiming(items[1..], addr, parse)
  }

  lemma {:induction false} ClaimingCounts<A>(items: seq<Candidate>, addr: A, parse: Parser<A>, c: Candidate)
    ensures multiset(Claiming(items, addr, parse))[c] == if Claims(c, addr, parse) then multiset(items)[c] else 0
  {
    if items != [] {
      ClaimingCounts(items[1..], addr, parse, c);
      assert items == [items[0]] + items[1..];
    }
  }

  lemma {:induction false} ClaimedOnce<A>(items: seq<Candidate>, addr: A, parse: Parser<A>, i: nat)
    requires OnlyClaim(items, addr, parse, i)
    ensures Claiming(items, addr, parse) == [items[i]]
  {
    var rest := items[1..];
    if i == 0 {
      forall j | 0 <= j < |rest| ensures !Claims(rest[j], addr, parse) {
        assert rest[j] == items[j + 1];
      }
      Unclaimed(rest, addr, parse);
    } else {
      assert !Claims(items[0], addr, parse);
      forall j | 0 <= j < |rest| && Claims(rest[j], addr, parse) ensures j == i - 1 {
        assert rest[j] == items[j + 1];
      }
      ClaimedOnce(rest, addr, parse, i - 1);
    }
  }

  lemma {:induction false} Unclaimed<A>(items: seq<Candidate>, addr: A, parse: Parser<A>)
    requires forall j :: 0 <= j < |items| ==> !Claims(items[j], addr, parse)
    ensures Claiming(items, addr, parse) == []
  {
    if items != [] {
      Unclaimed(items[1..], addr, parse);
    }
  }

  lemma {:induction false} ClaimedBy<A>(items: seq<Candidate>, addr: A, parse: Parser<A>) returns (i: nat)
    requires |Claiming(items, addr, parse)| == 1
    ensures OnlyClaim(items, addr, parse, i)
  {
    if Claims(items[0], addr, parse) {
      i := 0;
      forall j | 0 < j < |items| ensures !Claims(items[j], addr, parse) {
        NoneLeft(items[1..], addr, parse, j - 1);
      }
    } else {
      var k := ClaimedBy(items[1..], addr, parse);
      i := k + 1;
      forall j | 0 <= j < |items| && Claims(items[j], addr, parse) ensures j == i {
        assert items[1..][j - 1] == items[j];
      }
    }
  }

  lemma {:induction false} NoneLeft<A>(items: seq<Candidate>, addr: A, parse: Parser<A>, j: nat)
    requires Claiming(items, addr, parse) == [] && j < |items|
    ensures !Claims(items[j], addr, parse)
  {
    if j > 0 {
      NoneLeft(items[1..], addr, parse, j - 1);
    }
  }

  lemma SameAnswer<A>(s: seq<Candidate>, t: seq<Candidate>, addr: A, parse: Parser<A>, c: Candidate)
    requires multiset(s) == multiset(t) && Designates(s, addr, parse, c)
    ensures Designates(t, addr, parse, c)
  {
    forall j | 0 <= j < |t| ensures Parses(t[j], parse) {
      assert t[j] in multiset(s);
    }
    var i: nat :| OnlyClaim(s, addr, parse, i) && s[i] == c;
    ClaimedOnce(s, addr, parse, i);
    var cs, ct := Claiming(s, addr, parse), Claiming(t, addr, parse);
    forall x: Candidate ensures multiset(cs)[x] == multiset(ct)[x] {
      ClaimingCounts(s, addr, parse, x);
      ClaimingCounts(t, addr, parse, x);
    }
    assert multiset(cs) == multiset(ct);
    assert |cs| == |multiset(cs)| == |multiset(ct)| == |ct|;
    var j := ClaimedBy(t, addr, parse);
    ClaimedOnce(t, addr, parse, j);
    assert cs[0] in multiset(ct);
  }

  /** Whatever order the API server lists the switches in, the search succeeds for the same requests with the same
      Switch. */
  lemma OrderDoesNotMatter<A>(s: seq<Candidate>, t: seq<Candidate>, addr: A, parse: Parser<A>, c: Candidate)
    requires multiset(s) == multiset(t)
    ensures Designates(s, addr, parse, c) <==> Designates(t, addr, parse, c)
  {
    if Designates(s, addr, parse, c) {
      SameAnswer(s, t, addr, parse, c);
    }
    if Designates(t, addr, parse, c) {
      SameAnswer(t, s, addr, parse, c);
    }
  }
}
