/** Human approvals: each names one action, serves once, and expires. */
module Approvals {
  import opened Wrappers

  datatype Approval = Approval(
    actionId: string, verb: string, target: string, approvedBy: string,
    approvedAt: int, expiresAt: int, usedAt: Option<int>)
  {
    predicate Spent() {
      usedAt.Some?
    }

    predicate Expired(now: int) {
      now > expiresAt
    }

    /** Nothing but the mark of its use. */
    function Unused(): Approval {
      this.(usedAt := None)
    }
  }

  datatype Refusal = NoApproval | AlreadyUsed | OutOfDate | OtherAction

  /** A write to the file that fails raises, and leaves the file as it was. */
  datatype Failure = Refused(why: Refusal) | WriteFailed

  // ---------------------------------------------------------------- a dictionary in insertion order

  function Lookup(list: seq<Approval>, id: string): (r: Option<Approval>)
    ensures r.Some? ==> r.value in list && r.value.actionId == id
    ensures r.None? ==> forall a :: a in list ==> a.actionId != id
  {
    if list == [] then None
    else if list[0].actionId == id then Some(list[0])
    else Lookup(list[1..], id)
  }

  function Put(list: seq<Approval>, a: Approval): (r: seq<Approval>)
    ensures forall x :: x in r ==> x == a || x in list
  {
    if list == [] then [a]
    else if list[0].actionId == a.actionId then [a] + list[1..]
    else [list[0]] + Put(list[1..], a)
  }

  function Loaded(file: seq<Approval>): seq<Approval> {
    if file == [] then [] else Put(Loaded(file[..|file| - 1]), file[|file| - 1])
  }

  lemma {:induction false} PutLookup(list: seq<Approval>, a: Approval, id: string)
    ensures Lookup(Put(list, a), id) == if id == a.actionId then Some(a) else Lookup(list, id)
  {
    if list != [] && list[0].actionId != a.actionId {
      PutLookup(list[1..], a, id);
      assert ([list[0]] + Put(list[1..], a))[1..] == Put(list[1..], a);
    } else if list != [] {
      assert ([a] + list[1..])[1..] == list[1..];
    }
  }

  ghost predicate Keyed(list: seq<Approval>) {
    list == [] || ((forall x :: x in list[1..] ==> x.actionId != list[0].actionId) && Keyed(list[1..]))
  }

  lemma {:induction false} PutKeyed(list: seq<Approval>, a: Approval)
    requires Keyed(list)
    ensures Keyed(Put(list, a))
  {
    if list != [] && list[0].actionId != a.actionId {
      PutKeyed(list[1..], a);
      assert ([list[0]] + Put(list[1..], a))[1..] == Put(list[1..], a);
    } else if list != [] {
      assert ([a] + list[1..])[1..] == list[1..];
    }
  }

  lemma {:induction false} PutNew(list: seq<Approval>, a: Approval)
    requires forall x :: x in list ==> x.actionId != a.actionId
    ensures Put(list, a) == list + [a]
  {
    if list != [] {
      PutNew(list[1..], a);
      assert [list[0]] + (list[1..] + [a]) == list + [a];
    }
  }

  lemma {:induction false} KeyedInit(list: seq<Approval>)
    requires Keyed(list) && list != []
    ensures Keyed(list[..|list| - 1])
    ensures forall x :: x in list[..|list| - 1] ==> x.actionId != list[|list| - 1].actionId
  {
    if |list| > 1 {
      KeyedInit(list[1..]);
      assert list[..|list| - 1][1..] == list[1..][..|list| - 2];
      assert list[|list| - 1] in list[1..];
      assert list[..|list| - 1] == [list[0]] + list[1..][..|list| - 2];
    }
  }

  /** Reading the file back gives the dictionary that was written, in the same order. */
  lemma {:induction false} ReloadIsIdentity(file: seq<Approval>)
    requires Keyed(file)
    ensures Loaded(file) == file
  {
    if file != [] {
      var init, last := file[..|file| - 1], file[|file| - 1];
      KeyedInit(file);
      ReloadIsIdentity(init);
      PutNew(init, last);
      assert init + [last] == file;
    }
  }

  // ---------------------------------------------------------------- the store

  /** The file is there when the store was given a path. */
  datatype State = State(approvals: seq<Approval>, file: Option<seq<Approval>>)

  /** Where the new dictionary reaches the file, it does so as a whole. */
  function Written(approvals: seq<Approval>, file: Option<seq<Approval>>, saved: bool): State {
    State(approvals, if file.Some? && saved then Some(approvals) else file)
  }

  predicate Fails(s: State, saved: bool) {
    s.file.Some? && !saved
  }

  function GrantOf(upper: string -> string, id: string, verb: string, target: string, person: string, now: int,
                   ttl: int): Approval {
    Approval(id, upper(verb), target, person, now, now + ttl, None)
  }

  function AfterGrant(s: State, a: Approval, saved: bool): (State, Result<Approval, Failure>) {
    (Written(Put(s.approvals, a), s.file, saved), if Fails(s, saved) then Err(WriteFailed) else Ok(a))
  }

  /** The four refusals, in their order. */
  function Consumable(list: seq<Approval>, id: string, verb: string, target: string, now: int)
    : Result<Approval, Failure>
  {
    match Lookup(list, id)
    case None => Err(Refused(NoApproval))
    case Some(a) =>
      if a.Spent() then Err(Refused(AlreadyUsed))
      else if a.Expired(now) then Err(Refused(OutOfDate))
      else if a.verb != verb || a.target != target then Err(Refused(OtherAction))
      else Ok(a)
  }

  function AfterConsume(s: State, id: string, verb: string, target: string, now: int, saved: bool)
    : (State, Result<Approval, Failure>)
  {
    match Consumable(s.approvals, id, verb, target, now)
    case Err(e) => (s, Err(e))
    case Ok(a) =>
      var used := a.(usedAt := Some(now));
      (Written(Put(s.approvals, used), s.file, saved), if Fails(s, saved) then Err(WriteFailed) else Ok(used))
  }

  function AfterReload(s: State): State {
    State(if s.file.Some? then Loaded(s.file.value) else [], s.file)
  }

  class ApprovalStore {
    const upper: string -> string
    var approvals: seq<Approval>
    var file: Option<seq<Approval>>

    function View(): State
      reads this
    {
      State(approvals, file)
    }

    constructor (upper: string -> string, file: Option<seq<Approval>>)
      ensures View() == AfterReload(State([], file)) && this.upper == upper
    {
      this.upper, this.file := upper, file;
      approvals := [];
      new;
      if file.Some? {
        for i := 0 to |file.value|
          invariant this.file == file && approvals == Loaded(file.value[..i])
        {
          assert file.value[..i + 1][..i] == file.value[..i];
          approvals := Put(approvals, file.value[i]);
        }
        assert file.value[..|file.value|] == file.value;
      }
    }

    method Grant(id: string, verb: string, target: string, person: string, now: int, ttl: int, saved: bool)
      returns (r: Result<Approval, Failure>)
      modifies this
      ensures (View(), r) == AfterGrant(old(View()), GrantOf(upper, id, verb, target, person, now, ttl), saved)
    {
      var approval := Approval(id, upper(verb), target, person, now, now + ttl, None);
      approvals := Put(approvals, approval);
      var written := Save(saved);
      return if written then Ok(approval) else Err(WriteFailed);
    }

    /** Validates and burns an approval, or says why not. */
    method Consume(id: string, verb: string, target: string, now: int, saved: bool)
      returns (r: Result<Approval, Failure>)
      modifies this
      ensures (View(), r) == AfterConsume(old(View()), id, upper(verb), target, now, saved)
    {
      var found := Lookup(approvals, id);
      if found.None? {
        return Err(Refused(NoApproval));
      }
      var approval := found.value;
      if approval.Spent() {
        return Err(Refused(AlreadyUsed));
      }
      if approval.Expired(now) {
        return Err(Refused(OutOfDate));
      }
      if approval.verb != upper(verb) || approval.target != target {
        return Err(Refused(OtherAction));
      }
      approval := approval.(usedAt := Some(now));
      approvals := Put(approvals, approval);
      var written := Save(saved);
      return if written then Ok(approval) else Err(WriteFailed);
    }

    method Save(saved: bool) returns (written: bool)
      modifies this
      ensures View() == Written(old(approvals), old(file), saved)
      ensures written == !Fails(old(View()), saved)
    {
      if file.None? {
        return true;
      }
      if saved {
        file := Some(approvals);
      }
      return saved;
    }
  }

  // ---------------------------------------------------------------- one step

  /** An approval for exactly this action that has not served yet. */
  predicate Unspent(list: seq<Approval>, id: string, verb: string, target: string) {
    var a := Lookup(list, id);
    a.Some? && a.value.verb == verb && a.value.target == target && !a.value.Spent()
  }

  /** Held in memory, or on the file a restart would read. */
  function Available(s: State, id: string, verb: string, target: string): nat {
    if Unspent(s.approvals, id, verb, target) || (s.file.Some? && Unspent(s.file.value, id, verb, target)) then 1 else 0
  }

  ghost predicate Valid(s: State) {
    Keyed(s.approvals) && (s.file.Some? ==> Keyed(s.file.value))
  }

  lemma {:induction false} GrantStep(s: State, a: Approval, saved: bool, id: string, verb: string, target: string)
    requires Valid(s) && a.usedAt == None
    ensures var t := AfterGrant(s, a, saved).0;
      && Valid(t)
      && Available(t, id, verb, target) <=
           Available(s, id, verb, target) + if (a.actionId, a.verb, a.target) == (id, verb, target) then 1 else 0
  {
    PutKeyed(s.approvals, a);
    PutLookup(s.approvals, a, id);
  }

  /** What is used up is no longer available, even after a restart; a refusal uses up nothing. */
  lemma {:induction false} ConsumeStep(s: State, token: string, v: string, url: string, now: int, saved: bool,
                                       id: string, verb: string, target: string)
    requires Valid(s)
    ensures var (t, r) := AfterConsume(s, token, v, url, now, saved);
      && Valid(t)
      && Available(t, id, verb, target) + (if r.Ok? && (token, v, url) == (id, verb, target) then 1 else 0)
           <= Available(s, id, verb, target)
      && (r.Ok? ==> r.value.Unused() in s.approvals && r.value.usedAt == Some(now) && now <= r.value.expiresAt
                    && (r.value.actionId, r.value.verb, r.value.target) == (token, v, url))
  {
    var c := Consumable(s.approvals, token, v, url, now);
    if c.Ok? {
      PutKeyed(s.approvals, c.value.(usedAt := Some(now)));
      PutLookup(s.approvals, c.value.(usedAt := Some(now)), id);
    }
  }

  lemma {:induction false} ReloadStep(s: State, id: string, verb: string, target: string)
    requires Valid(s)
    ensures Valid(AfterReload(s)) && Available(AfterReload(s), id, verb, target) <= Available(s, id, verb, target)
  {
    if s.file.Some? {
      ReloadIsIdentity(s.file.value);
    }
  }

  // ---------------------------------------------------------------- what a grant is good for

  /** A store with a file answers only when the file was written. */
  predicate Saves(s: State, saved: bool) {
    s.file.Some? ==> saved
  }

  /** Other approvals stay as they were. */
  ghost predicate OthersKept(before: seq<Approval>, after: seq<Approval>, id: string) {
    forall other :: other != id ==> Lookup(after, other) == Lookup(before, other)
  }

  /**
    A grant can be used once, for its own method and address, until its time to live has passed and not
    later: in memory at once, and answered when the file, if there is one, was written.
  */
  lemma {:induction false} GrantIsUsable(upper: string -> string, s: State, id: string, verb: string, target: string,
                                         person: string, now: int, ttl: int, saved: bool, v: string, url: string,
                                         at: int, stored: bool)
    ensures var a := GrantOf(upper, id, verb, target, person, now, ttl);
      var (t, granted) := AfterGrant(s, a, saved);
      var (u, used) := AfterConsume(t, id, v, url, at, stored);
      && (granted.Ok? <==> Saves(s, saved)) && (granted.Ok? ==> granted.value == a)
      && a.actionId == id && a.approvedBy == person && a.approvedAt == now && a.usedAt == None
      && Lookup(t.approvals, id) == Some(a) && OthersKept(s.approvals, t.approvals, id)
      && t.file == (if s.file.Some? && saved then Some(t.approvals) else s.file)
      && (used.Ok? <==> v == upper(verb) && url == target && at <= now + ttl && Saves(s, stored))
      && (used.Ok? ==> used.value == a.(usedAt := Some(at)))
  {
    hide Lookup, Put, OthersKept;
    var a := GrantOf(upper, id, verb, target, person, now, ttl);
    PutLookup(s.approvals, a, id);
    PutKeepsOthers(s.approvals, a);
  }

  lemma {:induction false} PutKeepsOthers(list: seq<Approval>, a: Approval)
    ensures OthersKept(list, Put(list, a), a.actionId)
  {
    forall other | other != a.actionId
      ensures Lookup(Put(list, a), other) == Lookup(list, other)
    {
      PutLookup(list, a, other);
    }
  }

  /**
    Using an approval marks it, and only it; nobody can use it again, at any time and for any action, until
    it is granted anew. A use that is refused changes nothing.
  */
  lemma {:induction false} UsedOnce(s: State, id: string, v: string, url: string, now: int, saved: bool, v': string,
                                    url': string, later: int, saved': bool)
    ensures var (t, used) := AfterConsume(s, id, v, url, now, saved);
      && (used.Err? && used.error.Refused? ==> t == s)
      && (used.Ok? ==>
            && Lookup(s.approvals, id).Some? && used.value == Lookup(s.approvals, id).value.(usedAt := Some(now))
            && Lookup(t.approvals, id) == Some(used.value) && OthersKept(s.approvals, t.approvals, id)
            && t.file == (if s.file.Some? then Some(t.approvals) else None)
            && AfterConsume(t, id, v', url', later, saved') == (t, Err(Refused(AlreadyUsed))))
  {
    hide Lookup, Put, OthersKept;
    var found := Lookup(s.approvals, id);
    if found.Some? {
      PutLookup(s.approvals, found.value.(usedAt := Some(now)), id);
      PutKeepsOthers(s.approvals, found.value.(usedAt := Some(now)));
    }
  }

  /**
    Why a use is refused: no approval under this identifier; used before; past its time; or given for another
    action; the first of these that applies. A use that can be granted still raises when it cannot be written.
  */
  lemma {:induction false} RefusedBecause(s: State, id: string, v: string, url: string, now: int, saved: bool)
    ensures var r := AfterConsume(s, id, v, url, now, saved).1;
      && (r == Err(Refused(NoApproval)) <==> forall a :: a in s.approvals ==> a.actionId != id)
      && (Lookup(s.approvals, id).Some? ==>
            && var a := Lookup(s.approvals, id).value;
            var unused, timely := a.usedAt == None, now <= a.expiresAt;
            && (r == Err(Refused(AlreadyUsed)) <==> !unused)
            && (r == Err(Refused(OutOfDate)) <==> unused && !timely)
            && (r == Err(Refused(OtherAction)) <==> unused && timely && !(a.verb == v && a.target == url))
            && (r == Err(WriteFailed) <==>
                  unused && timely && a.verb == v && a.target == url && s.file.Some? && !saved))
  {
  }

  /**
    A restart: what was saved with the last grant or use is there again, in its order; a use or grant that was
    not saved is forgotten, and without a file everything is.
  */
  lemma {:induction false} RestartReadsFile(s: State, a: Approval, id: string, v: string, url: string, now: int,
                                            saved: bool)
    requires Keyed(s.approvals) && (s.file.Some? ==> Keyed(s.file.value))
    ensures AfterReload(s).approvals == if s.file.Some? then s.file.value else []
    ensures var t := AfterGrant(s, a, saved).0;
      AfterReload(t) == if s.file.None? then s.(approvals := []) else if saved then t else AfterReload(s)
    ensures var t := AfterConsume(s, id, v, url, now, saved).0;
      AfterConsume(s, id, v, url, now, saved).1.Ok? && s.file.Some? ==> AfterReload(t) == t
  {
    hide Lookup, Put;
    if s.file.Some? {
      ReloadIsIdentity(s.file.value);
    }
    PutKeyed(s.approvals, a);
    ReloadIsIdentity(Put(s.approvals, a));
    var found := Consumable(s.approvals, id, v, url, now);
    if found.Ok? {
      PutKeyed(s.approvals, found.value.(usedAt := Some(now)));
      ReloadIsIdentity(Put(s.approvals, found.value.(usedAt := Some(now))));
    }
  }
}
