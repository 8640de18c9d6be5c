/** The Redfish mock-up server's collection and the client that reads it, in their sources' form. */
module Redfish {
  import opened Basics
  import opened RedfishModel
  import Text

  /** A member by its '@odata.id', when it has one. */
  type Member = Option<string>

  /** The id a new member asks for. */
  function BaseOf(id: Option<string>): string
  {
    if id.Some? then id.value else "Member"
  }

  /** A stored collection resource. */
  class Collection {
    const path: string
    var members: seq<Member>
    var count: int
    var nextLink: Option<Link>

    constructor (path: string, members: seq<Member>, count: int, nextLink: Option<Link>)
      ensures this.path == path && Stored() == Page(members, nextLink) && this.count == count
    {
      this.path, this.members, this.count, this.nextLink := path, members, count, nextLink;
    }

    function Stored(): Page<Member>
      reads this
    {
      Page(members, nextLink)
    }

    /** The query part of a GET. */
    method Get(top: Option<int>, skip: Option<int>) returns (output: Page<Member>)
      ensures output == Served(Stored(), top, skip)
    {
      var myMembers := members;
      var topCount := if top.Some? then top.value else |myMembers|;
      var topSkip := if skip.Some? then skip.value else 0;
      output := Stored();
      myMembers := From(myMembers, topSkip);
      if topCount < |myMembers| {
        myMembers := UpTo(myMembers, topCount);
        output := output.(next := Some(Link(topCount, topSkip + topCount)));
      }
      output := output.(members := myMembers);
    }

    /** Add a member under the first name that is free: the given id, then the id followed by
        2, 3, ... There are at most as many names to try as members, plus one. */
    method AddNewMember(id: Option<string>) returns (newpath: string, ghost n: nat)
      modifies this
      ensures nextLink == old(nextLink)
      ensures 1 <= n <= |old(members)| + 1
      ensures newpath == Candidate(path, BaseOf(id), n)
      ensures Some(newpath) !in old(members)
      ensures forall i :: 1 <= i < n ==> Some(Candidate(path, BaseOf(id), i)) in old(members)
      ensures members == old(members) + [Some(newpath)] && count == |members|
    {
      var base := if id.Some? then id.value else "Member";
      var tries: nat := 1;
      newpath := path + "/" + base;
      while Some(newpath) in members
        invariant members == old(members) && nextLink == old(nextLink)
        invariant tries >= 1 && newpath == Candidate(path, base, tries)
        invariant forall i :: 1 <= i < tries ==> Some(Candidate(path, base, i)) in members
        decreases |members| + 1 - tries
      {
        TakenBound(path, base, tries, members);
        tries := tries + 1;
        var newpathId := base + Text.Decimal(tries);
        newpath := path + "/" + newpathId;
      }
      TakenBound(path, base, tries - 1, members);
      n := tries;
      members := members + [Some(newpath)];
      count := |members|;
    }

    /** Any number of additions keeps the names distinct and the count exact. */
    method AddAll(ids: seq<Option<string>>)
      requires count == |members| && forall i, j :: 0 <= i < j < |members| ==> members[i] != members[j]
      modifies this
      ensures count == |members| == |old(members)| + |ids| && old(members) <= members
      ensures forall i, j :: 0 <= i < j < |members| ==> members[i] != members[j]
    {
      for k := 0 to |ids|
        invariant count == |members| == |old(members)| + k && old(members) <= members
        invariant forall i, j :: 0 <= i < j < |members| ==> members[i] != members[j]
      {
        var newpath, n := AddNewMember(ids[k]);
      }
    }
  }

  /** Merge a patch into an object, property by property, recursing into nested objects. */
  method DictMerge(d: Json, p: Json) returns (r: Json)
    requires d.Dict? && p.Dict?
    ensures r == Merge(d, p)
    decreases p
  {
    var dct := d.m;
    var left := p.m.Keys;
    while left != {}
      invariant left <= p.m.Keys
      invariant dct == map k | k in d.m.Keys + (p.m.Keys - left) :: if k in left then d.m[k] else Merged(d, p, k)
      decreases left
    {
      var k :| k in left;
      left := left - {k};
      if k in dct && dct[k].Dict? && p.m[k].Dict? {
        var nested := DictMerge(dct[k], p.m[k]);
        dct := dct[k := nested];
      } else {
        dct := dct[k := p.m[k]];
      }
    }
    r := Dict(dct);
  }

  /** Read a collection, following its nextLinks: what the pages hold together, with the
      nextLink of the first. */
  method SendRecvRequest(server: Collection, top: Option<int>, skip: Option<int>) returns (respd: Page<Member>)
    ensures var first := Served(server.Stored(), top, skip);
            respd == Page(Followed(server.Stored(), first, MAX_NEXT_LINKS - 1), first.next)
  {
    hide Served;
    ghost var stored := server.Stored();
    ghost var first := Served(stored, top, skip);
    ghost var all := Followed(stored, first, MAX_NEXT_LINKS - 1);
    var url := (top, skip);
    var have := false;
    respd := Page([], None);
    var attempt := 0;
    while true
      invariant 0 <= attempt < MAX_NEXT_LINKS && (have <==> attempt > 0)
      invariant !have ==> url == (top, skip)
      invariant have ==> respd.next == first.next &&
                         respd.members + Followed(stored, Served(stored, url.0, url.1), MAX_NEXT_LINKS - 1 - attempt)
                             == all
      decreases MAX_NEXT_LINKS - attempt
    {
      ghost var before := respd.members;
      var d := server.Get(url.0, url.1);
      if !have && d.next == None {
        return d;
      } else if !have {
        respd := d;
        have := true;
      } else if d.next.Some? {
        respd := respd.(members := respd.members + d.members);
      } else {
        respd := respd.(members := respd.members + d.members);
        return;
      }
      url := (Some(d.next.value.top), Some(d.next.value.skip));
      if attempt + 1 >= MAX_NEXT_LINKS {
        return;
      }
      ghost var more := Followed(stored, Served(stored, url.0, url.1), MAX_NEXT_LINKS - 2 - attempt);
      assert attempt > 0 ==> before + (d.members + more) == (before + d.members) + more;
      attempt := attempt + 1;
    }
  }
}
