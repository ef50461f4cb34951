/**
 * The in-memory link service: a module-level table of link records that
 * `createLink` appends to, `deleteLink` splices, `incrementClicks` updates in
 * place and `getUserLinks` hands out. The cipher and the random generators
 * are foreign; they arrive as parameters.
 */
module LinkStore {
  import opened JsText
  import opened JsArray

  /** A link record as the service stores it. Timestamps are milliseconds. */
  datatype Link = Link(
    id: string,
    userId: string,
    originalUrl: string,
    shortCode: string,
    encryptedUrl: string,
    createdAt: int,
    expiresAt: Option<int>,
    clicks: nat,
    isActive: bool)

  /** A symmetric cipher, (plaintext, key) -> ciphertext. */
  type Cipher = (string, string) -> string

  /** The key `encryptUrl` falls back to when none is passed. */
  const DefaultKey: string := "your-secret-key"

  const DayMs: int := 24 * 60 * 60 * 1000

  /** The seed table, given the moment the module was loaded. */
  function SeedLinks(loadTime: int): (s: seq<Link>)
    ensures |s| == 1 && s[0].shortCode == "abc123" && s[0].clicks == 42
    ensures s[0].expiresAt == Some(loadTime + 7 * DayMs)
  {
    [Link("1", "1", "https://www.example.com/very/long/url/that/needs/shortening",
          "abc123", "", loadTime, Some(loadTime + 7 * DayMs), 42, true)]
  }

  /** `links.findIndex(l => l.id === id)`: the first position holding `id`, or -1. */
  function IndexOfId(links: seq<Link>, id: string): (r: int)
    ensures -1 <= r < |links|
    ensures r == -1 <==> forall k :: 0 <= k < |links| ==> links[k].id != id
    ensures r >= 0 ==> links[r].id == id && forall k :: 0 <= k < r ==> links[k].id != id
  {
    if links == [] then -1
    else if links[0].id == id then 0
    else
      var r := IndexOfId(links[1..], id);
      if r == -1 then -1 else r + 1
  }

  /** The position of the record `links.find(l => l.shortCode === code)` returns, or -1. */
  function IndexOfCode(links: seq<Link>, code: string): (r: int)
    ensures -1 <= r < |links|
    ensures r == -1 <==> forall k :: 0 <= k < |links| ==> links[k].shortCode != code
    ensures r >= 0 ==> links[r].shortCode == code && forall k :: 0 <= k < r ==> links[k].shortCode != code
  {
    if links == [] then -1
    else if links[0].shortCode == code then 0
    else
      var r := IndexOfCode(links[1..], code);
      if r == -1 then -1 else r + 1
  }

  /** The table after `deleteLink(id)`. */
  function DeleteFirst(links: seq<Link>, id: string): seq<Link>
  {
    var i := IndexOfId(links, id);
    if i == -1 then links else links[..i] + links[i + 1..]
  }

  /** The table after `incrementClicks(code)`. */
  function ClickFirst(links: seq<Link>, code: string): seq<Link>
  {
    var i := IndexOfCode(links, code);
    if i == -1 then links else links[i := links[i].(clicks := links[i].clicks + 1)]
  }

  /** `links.filter(l => l.id !== id)`: every record except those with this id. */
  function WithoutId(links: seq<Link>, id: string): seq<Link>
  {
    Filter(links, (l: Link) => l.id != id)
  }

  function CountId(links: seq<Link>, id: string): nat
  {
    if links == [] then 0 else (if links[0].id == id then 1 else 0) + CountId(links[1..], id)
  }

  function TotalClicks(links: seq<Link>): nat
  {
    if links == [] then 0 else links[0].clicks + TotalClicks(links[1..])
  }

  predicate UniqueIds(links: seq<Link>) {
    forall p, q :: 0 <= p < q < |links| ==> links[p].id != links[q].id
  }

  /** Deleting removes the first record with the id and nothing else; the
      records before and after it keep their order. Without a match the
      table is unchanged. */
  lemma DeleteRemovesFirstMatchOnly(links: seq<Link>, id: string)
    ensures IndexOfId(links, id) == -1 ==> DeleteFirst(links, id) == links
    ensures IndexOfId(links, id) >= 0 ==>
      var i := IndexOfId(links, id);
      var r := DeleteFirst(links, id);
      |r| == |links| - 1 && r[..i] == links[..i] && r[i..] == links[i + 1..] &&
      multiset(r) + multiset{links[i]} == multiset(links)
  {
    var i := IndexOfId(links, id);
    if i >= 0 {
      SpliceFacts(links, i);
    }
  }

  /** Splicing out position `i` shortens the sequence by one, keeps what
      comes before and after in order, and drops exactly `xs[i]`. */
  lemma SpliceFacts<T>(xs: seq<T>, i: nat)
    requires i < |xs|
    ensures var r := xs[..i] + xs[i + 1..];
      |r| == |xs| - 1 && r[..i] == xs[..i] && r[i..] == xs[i + 1..] &&
      multiset(r) + multiset{xs[i]} == multiset(xs)
  {
    var r := xs[..i] + xs[i + 1..];
    assert r[..i] == xs[..i];
    assert r[i..] == xs[i + 1..];
    assert xs == xs[..i] + [xs[i]] + xs[i + 1..];
  }

  /** Exactly one record with the id goes away when there is one: a duplicate id
      survives a delete. */
  lemma {:induction false} DeleteDropsOneOccurrence(links: seq<Link>, id: string)
    ensures CountId(DeleteFirst(links, id), id) ==
      if IndexOfId(links, id) == -1 then 0 else CountId(links, id) - 1
  {
    if links != [] {
      DeleteDropsOneOccurrence(links[1..], id);
      var i := IndexOfId(links, id);
      if i == -1 {
        NoMatchCountsZero(links, id);
      } else if i == 0 {
        assert DeleteFirst(links, id) == links[1..];
      } else {
        DeleteFirstSkipsHead(links, id);
      }
    }
  }

  lemma {:induction false} NoMatchCountsZero(links: seq<Link>, id: string)
    requires forall k :: 0 <= k < |links| ==> links[k].id != id
    ensures CountId(links, id) == 0
  {
    if links != [] {
      NoMatchCountsZero(links[1..], id);
    }
  }

  /** When ids are unique, deleting the first match is the same as filtering
      out every record with that id. */
  lemma {:induction false} DeleteIsFilterWhenIdsUnique(links: seq<Link>, id: string)
    requires UniqueIds(links)
    ensures DeleteFirst(links, id) == WithoutId(links, id)
  {
    if links != [] {
      var tail := links[1..];
      UniqueTail(links);
      if links[0].id == id {
        forall k | 0 <= k < |tail| ensures tail[k].id != id {
          assert tail[k] == links[k + 1];
        }
        NoMatchFilterKeepsAll(tail, id);
        assert DeleteFirst(links, id) == tail;
      } else {
        DeleteIsFilterWhenIdsUnique(tail, id);
        DeleteFirstSkipsHead(links, id);
      }
    }
  }

  lemma UniqueTail(links: seq<Link>)
    requires links != [] && UniqueIds(links)
    ensures UniqueIds(links[1..])
  {
    var tail := links[1..];
    forall p, q | 0 <= p < q < |tail| ensures tail[p].id != tail[q].id {
      assert tail[p] == links[p + 1] && tail[q] == links[q + 1];
    }
  }

  lemma {:induction false} NoMatchFilterKeepsAll(links: seq<Link>, id: string)
    requires forall k :: 0 <= k < |links| ==> links[k].id != id
    ensures WithoutId(links, id) == links
  {
    if links != [] {
      NoMatchFilterKeepsAll(links[1..], id);
    }
  }

  /** A delete passes over a head record with another id. */
  lemma DeleteFirstSkipsHead(links: seq<Link>, id: string)
    requires links != [] && links[0].id != id
    ensures DeleteFirst(links, id) == [links[0]] + DeleteFirst(links[1..], id)
  {
    var i := IndexOfId(links, id);
    var j := IndexOfId(links[1..], id);
    assert i == if j == -1 then -1 else j + 1;
    if i != -1 {
      SpliceAfterHead(links, i);
    } else {
      assert links == [links[0]] + links[1..];
    }
  }

  lemma SpliceAfterHead<T>(xs: seq<T>, i: nat)
    requires 0 < i < |xs|
    ensures xs[..i] + xs[i + 1..] == [xs[0]] + (xs[1..][..i - 1] + xs[1..][i..])
  {
    assert xs[..i] == [xs[0]] + xs[1..][..i - 1];
    assert xs[i + 1..] == xs[1..][i..];
  }

  lemma UpdateAfterHead<T>(xs: seq<T>, i: nat, v: T)
    requires 0 < i < |xs|
    ensures xs[i := v] == [xs[0]] + xs[1..][i - 1 := v]
  {
  }

  /** A click adds exactly one to the table's total when the code is present,
      and nothing otherwise. */
  lemma {:induction false} ClickAddsOne(links: seq<Link>, code: string)
    ensures TotalClicks(ClickFirst(links, code)) ==
      TotalClicks(links) + if IndexOfCode(links, code) == -1 then 0 else 1
  {
    if links != [] {
      ClickAddsOne(links[1..], code);
      var i := IndexOfCode(links, code);
      if i != 0 {
        ClickFirstSkipsHead(links, code);
      } else {
        assert ClickFirst(links, code) == [links[0].(clicks := links[0].clicks + 1)] + links[1..];
      }
    }
  }

  /** A click passes over a head record with another code. */
  lemma ClickFirstSkipsHead(links: seq<Link>, code: string)
    requires links != [] && links[0].shortCode != code
    ensures ClickFirst(links, code) == [links[0]] + ClickFirst(links[1..], code)
  {
    var i := IndexOfCode(links, code);
    var j := IndexOfCode(links[1..], code);
    assert i == if j == -1 then -1 else j + 1;
    if i != -1 {
      assert links[1..][j] == links[i];
      UpdateAfterHead(links, i, links[i].(clicks := links[i].clicks + 1));
    } else {
      assert links == [links[0]] + links[1..];
    }
  }

  /** The shared table behind the service object. */
  class LinkService {
    var links: seq<Link>

    /** The table as the module loads it: the seed data. */
    constructor (loadTime: int)
      ensures links == SeedLinks(loadTime)
    {
      links := SeedLinks(loadTime);
    }

    /** `createLink`. The third, fifth, sixth and seventh arguments are ignored:
        the short code always comes from the generator, and the stored
        `encryptedUrl` always uses the default key. `newId`, `newCode` and `now`
        are what the random id, `generateShortCode` and the clock produce. */
    method CreateLink(userId: string, originalUrl: string, customCode: Option<string>,
                      expiresAt: Option<int>, useEncryption: bool, encryptionKey: Option<string>,
                      expiresAtOverride: Option<int>,
                      newId: string, newCode: string, now: int, encrypt: Cipher)
      returns (link: Link)
      modifies this
      ensures links == old(links) + [link]
      ensures link.id == newId && link.userId == userId && link.originalUrl == originalUrl
      ensures link.shortCode == newCode && link.encryptedUrl == encrypt(originalUrl, DefaultKey)
      ensures link.createdAt == now && link.expiresAt == expiresAt
      ensures link.clicks == 0 && link.isActive
    {
      link := Link(newId, userId, originalUrl, newCode, encrypt(originalUrl, DefaultKey),
                   now, expiresAt, 0, true);
      links := links + [link];
    }

    /** `getUserLinks`: the whole table, whoever asks. */
    method GetUserLinks(userId: string) returns (r: seq<Link>)
      ensures r == links
    {
      r := links;
    }

    /** The `findIndex` scan inside `deleteLink`. */
    method FindIndexById(id: string) returns (index: int)
      ensures index == IndexOfId(links, id)
    {
      index := 0;
      while index < |links|
        invariant 0 <= index <= |links|
        invariant forall k :: 0 <= k < index ==> links[k].id != id
      {
        if links[index].id == id {
          return;
        }
        index := index + 1;
      }
      index := -1;
    }

    /** The `find` scan inside `incrementClicks`. */
    method FindIndexByCode(code: string) returns (index: int)
      ensures index == IndexOfCode(links, code)
    {
      index := 0;
      while index < |links|
        invariant 0 <= index <= |links|
        invariant forall k :: 0 <= k < index ==> links[k].shortCode != code
      {
        if links[index].shortCode == code {
          return;
        }
        index := index + 1;
      }
      index := -1;
    }

    /** `deleteLink`: splices out the first record with the id, if any. */
    method DeleteLink(id: string)
      modifies this
      ensures links == DeleteFirst(old(links), id)
    {
      var index := FindIndexById(id);
      if index != -1 {
        links := links[..index] + links[index + 1..];
      }
    }

    /** `incrementClicks`: one more click on the first record with the code, if any. */
    method IncrementClicks(code: string)
      modifies this
      ensures links == ClickFirst(old(links), code)
    {
      var index := FindIndexByCode(code);
      if index != -1 {
        links := links[index := links[index].(clicks := links[index].clicks + 1)];
      }
    }
  }
}
