/** The Redis database behind the SONiC accessors: hashes by key, a glob SCAN, and a client
    whose every command may fail, before or after it took effect. */
module Redis {
  import opened Text

  type Fields = map<string, string>
  type Store = map<string, Fields>

  /** Redis keeps no empty hash. */
  predicate NoEmptyHash(store: Store) {
    forall k :: k in store ==> store[k] != map[]
  }

  datatype Command =
    | HSet(key: string, fields: Fields)
    | HDel(key: string, field: string)
    | Del(key: string)

  function FieldsAt(store: Store, key: string): Fields {
    if key in store then store[key] else map[]
  }

  function Apply(store: Store, c: Command): Store {
    match c
    case HSet(key, fields) => if fields == map[] then store else store[key := FieldsAt(store, key) + fields]
    case HDel(key, field) =>
      var left := FieldsAt(store, key) - {field};
      if left == map[] then store - {key} else store[key := left]
    case Del(key) => store - {key}
  }

  /** The store after a sequence of commands. */
  function Run(store: Store, cs: seq<Command>): Store {
    if cs == [] then store else Apply(Run(store, cs[..|cs| - 1]), cs[|cs| - 1])
  }

  lemma RunNone(store: Store)
    ensures Run(store, []) == store
  {
  }

  lemma RunSnoc(store: Store, cs: seq<Command>, c: Command)
    ensures Run(store, cs + [c]) == Apply(Run(store, cs), c)
  {
    assert (cs + [c])[..|cs|] == cs;
  }

  lemma {:induction false} RunConcat(store: Store, a: seq<Command>, b: seq<Command>)
    ensures Run(store, a + b) == Run(Run(store, a), b)
    decreases |b|
  {
    if b == [] {
      assert a + b == a;
    } else {
      var init := b[..|b| - 1];
      RunConcat(store, a, init);
      assert (a + b)[..|a + b| - 1] == a + init;
    }
  }

  // ---------- glob patterns ----------

  predicate IsGlobMeta(c: char) {
    c == '*' || c == '?' || c == '[' || c == ']' || c == '\\'
  }

  lemma GlobMetaIs(c: char)
    ensures IsGlobMeta(c) <==> c in "*?[]\\"
  {
  }

  predicate GlobFree(s: string) {
    forall i :: 0 <= i < |s| ==> !IsGlobMeta(s[i])
  }

  /** Free of glob metacharacters and of the key separator. */
  predicate PlainText(s: string) {
    forall i :: 0 <= i < |s| ==> !IsGlobMeta(s[i]) && s[i] != '|'
  }

  /** A pattern whose only metacharacter is `*`: the ones the accessors build from names free of metacharacters. */
  predicate StarPattern(p: string) {
    forall i :: 0 <= i < |p| ==> p[i] == '*' || !IsGlobMeta(p[i])
  }

  predicate GlobMatch(p: string, s: string)
    requires StarPattern(p)
    decreases |p| + |s|
  {
    if p == [] then s == []
    else if p[0] == '*' then GlobMatch(p[1..], s) || (s != [] && GlobMatch(p, s[1..]))
    else s != [] && s[0] == p[0] && GlobMatch(p[1..], s[1..])
  }

  lemma {:induction false} GlobLiteral(lit: string, s: string)
    requires GlobFree(lit)
    ensures GlobMatch(lit, s) <==> s == lit
  {
    if lit != [] && s != [] {
      GlobLiteral(lit[1..], s[1..]);
      assert s == [s[0]] + s[1..] && lit == [lit[0]] + lit[1..];
    }
  }

  lemma {:induction false} GlobStarLiteral(lit: string, s: string)
    requires GlobFree(lit)
    ensures GlobMatch("*" + lit, s) <==> |lit| <= |s| && s[|s| - |lit|..] == lit
    decreases |s|
  {
    assert ("*" + lit)[1..] == lit;
    GlobLiteral(lit, s);
    if s != [] {
      GlobStarLiteral(lit, s[1..]);
    }
  }

  lemma GlobHead(pre: string, post: string, s: string)
    requires GlobFree(pre) && GlobFree(post) && pre != []
    ensures StarPattern(pre + "*" + post) && StarPattern(pre[1..] + "*" + post)
    ensures GlobMatch(pre + "*" + post, s) <==> s != [] && s[0] == pre[0] && GlobMatch(pre[1..] + "*" + post, s[1..])
  {
    assert (pre + "*" + post)[1..] == pre[1..] + "*" + post;
  }

  lemma SameEnds(pre: string, post: string, s: string)
    requires pre != [] && s != [] && |pre| + |post| <= |s|
    ensures s[|s| - |post|..] == s[1..][|s[1..]| - |post|..]
    ensures pre <= s <==> pre[0] == s[0] && pre[1..] <= s[1..]
  {
    assert s == [s[0]] + s[1..] && pre == [pre[0]] + pre[1..];
  }

  /** `pre*post` matches the texts that start with `pre` and end, without overlap, with `post`. */
  lemma {:induction false} GlobPrefixSuffix(pre: string, post: string, s: string)
    requires GlobFree(pre) && GlobFree(post)
    ensures GlobMatch(pre + "*" + post, s)
            <==> |pre| + |post| <= |s| && pre <= s && s[|s| - |post|..] == post
    decreases |pre|
  {
    hide GlobMatch, IsGlobMeta;
    if pre == [] {
      assert pre + "*" + post == "*" + post;
      GlobStarLiteral(post, s);
    } else {
      GlobHead(pre, post, s);
      if s != [] {
        GlobPrefixSuffix(pre[1..], post, s[1..]);
        if |pre| + |post| <= |s| {
          SameEnds(pre, post, s);
        }
      }
    }
  }

  // ---------- SCAN ----------

  /** A full SCAN iteration over an unchanging store: some pages, repeating keys at will, that
      together hold exactly the matching keys. */
  ghost predicate CompleteScan(pages: seq<seq<string>>, store: Store, pattern: string)
    requires StarPattern(pattern)
  {
    && pages != []
    && (forall k :: Paged(pages, k) <==> k in store && GlobMatch(pattern, k))
  }

  ghost predicate Paged(pages: seq<seq<string>>, k: string) {
    exists i :: 0 <= i < |pages| && k in pages[i]
  }

  ghost predicate Lists(keys: seq<string>, store: Store, pattern: string)
    requires StarPattern(pattern)
  {
    forall k :: k in keys <==> k in store && GlobMatch(pattern, k)
  }

  /** A Redis client. `log` records the commands that took effect, in order; `faulted` if any reply was an error. */
  class Client {
    var store: Store
    ghost var log: seq<Command>
    ghost var faulted: bool

    constructor (initial: Store)
      ensures store == initial && log == [] && !faulted
    {
      store, log, faulted := initial, [], false;
    }

    /** One write. An error reply leaves open whether the command took effect. */
    method Write(c: Command) returns (ok: bool)
      modifies this
      ensures Wrote(this, c)
      ensures ok ==> log == old(log) + [c] && store == Apply(old(store), c)
      ensures faulted == (old(faulted) || !ok)
    {
      ok := *;
      var effective: bool := *;
      if ok || effective {
        store, log := Apply(store, c), log + [c];
      }
      faulted := faulted || !ok;
    }

    /** One reply to a read. */
    method Reply() returns (ok: bool)
      modifies this`faulted
      ensures faulted == (old(faulted) || !ok)
    {
      ok := *;
      faulted := faulted || !ok;
    }

    /** The pages a SCAN iteration would return; callers know nothing beyond `CompleteScan`. */
    method Pages(pattern: string) returns (pages: seq<seq<string>>)
      requires StarPattern(pattern)
      ensures CompleteScan(pages, store, pattern)
    {
      var keys: set<string> := set k | k in store && GlobMatch(pattern, k);
      var page: seq<string> := [];
      var left := keys;
      while left != {}
        invariant left <= keys
        invariant forall k :: k in keys <==> k in page || k in left
      {
        var k :| k in left;
        page, left := page + [k], left - {k};
      }
      pages := [page];
      forall k
        ensures Paged(pages, k) <==> k in page
      {
        assert pages[0] == page;
      }
    }

    /** The cursor loop of `scanKeys`: one reply a page, an error reply ends it. */
    method ScanKeys(pattern: string) returns (keys: Option<seq<string>>)
      requires StarPattern(pattern)
      modifies this`faulted
      ensures keys.Some? ==> Lists(keys.value, store, pattern)
      ensures faulted == (old(faulted) || keys.None?)
    {
      var pages := Pages(pattern);
      var acc: seq<string> := [];
      var cursor := 0;
      while true
        invariant 0 <= cursor < |pages|
        invariant faulted == old(faulted)
        invariant forall k :: k in acc <==> Paged(pages[..cursor], k)
        decreases |pages| - cursor
      {
        var ok := Reply();
        if !ok {
          return None;
        }
        forall k
          ensures Paged(pages[..cursor + 1], k) <==> Paged(pages[..cursor], k) || k in pages[cursor]
        {
          PagedSnoc(pages, cursor, k);
        }
        acc := acc + pages[cursor];
        if cursor + 1 == |pages| {
          assert pages[..cursor + 1] == pages;
          return Some(acc);
        }
        cursor := cursor + 1;
      }
    }
  }

  /** The client carried out the one command `c`, or nothing. */
  twostate predicate Wrote(db: Client, c: Command)
    reads db
  {
    || (db.log == old(db.log) && db.store == old(db.store))
    || (db.log == old(db.log) + [c] && db.store == Apply(old(db.store), c))
  }

  /** The client carried out exactly a prefix of `plan`. */
  twostate predicate Issued(db: Client, plan: seq<Command>)
    reads db
  {
    && old(db.log) <= db.log
    && db.log[|old(db.log)|..] <= plan
    && db.store == Run(old(db.store), db.log[|old(db.log)|..])
  }

  lemma PagedSnoc(pages: seq<seq<string>>, i: nat, k: string)
    requires i < |pages|
    ensures Paged(pages[..i + 1], k) <==> Paged(pages[..i], k) || k in pages[i]
  {
    if Paged(pages[..i], k) {
      var j :| 0 <= j < i && k in pages[..i][j];
      assert k in pages[..i + 1][j];
    }
    if k in pages[i] {
      assert k in pages[..i + 1][i];
    }
    if Paged(pages[..i + 1], k) {
      var j :| 0 <= j < i + 1 && k in pages[..i + 1][j];
      if j < i {
        assert k in pages[..i][j];
      }
    }
  }
}
