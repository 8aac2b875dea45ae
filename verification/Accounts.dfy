/** Choosing the platform account a squid needs, from what the API shows of it. */
module Accounts {
  import opened Wrappers
  import opened Dicts

  /** A connected account; `expired` stands for its cookies, `locked` for a lock that is still running. */
  datatype Account = Account(id: string, platform: string, status: string, expired: bool, locked: bool)

  /** The shapes in which the API shows a squid's account list; the last stands for any other. */
  datatype AccountsShape = NullShape | StringShape | RecordShape | OddShape

  /** The `accounts` field of a squid, as read. */
  function Shown(ids: seq<string>, shape: AccountsShape): Json {
    match shape
    case NullShape => if ids == [] then JNull else JList(seq(|ids|, i requires 0 <= i < |ids| => JStr(ids[i])))
    case StringShape => JList(seq(|ids|, i requires 0 <= i < |ids| => JStr(ids[i])))
    case RecordShape => JList(seq(|ids|, i requires 0 <= i < |ids| => JDict(map["id" := JStr(ids[i])])))
    case OddShape => JDict(map[])
  }

  predicate IsRecord(v: Json) {
    v.JDict? && "id" in v.entries && v.entries["id"].JStr?
  }

  /** `squid_account_ids`: none when the field is absent or empty, the ids of a list of strings or of
      records, and an error for any other shape. */
  function AccountIds(field: Json): Option<seq<string>> {
    if field == JNull then Some([])
    else if !field.JList? then None
    else
      var items := field.items;
      if forall v | v in items :: v.JStr? then
        Some(seq(|items|, i requires 0 <= i < |items| && items[i] in items => items[i].s))
      else if forall v | v in items :: IsRecord(v) then
        Some(seq(|items|, i requires 0 <= i < |items| && items[i] in items => items[i].entries["id"].s))
      else None
  }

  /** Reading gives back exactly the attached accounts, or refuses: it never reports fewer. */
  lemma ReadsAllOrRefuses(ids: seq<string>, shape: AccountsShape)
    ensures AccountIds(Shown(ids, shape)) == if shape == OddShape then None else Some(ids)
  {
    if shape != OddShape && Shown(ids, shape) != JNull {
      var items := Shown(ids, shape).items;
      if ids != [] {
        assert items[0] in items;
      }
      if shape == RecordShape {
        assert forall v | v in items :: IsRecord(v);
      }
      assert AccountIds(Shown(ids, shape)).value == ids;
    }
  }

  /** Whatever the API shows: what is read is the id of every entry, in order, or nothing at all. */
  lemma NoneIsLeftOut(field: Json)
    ensures AccountIds(field).Some? ==>
              var ids := AccountIds(field).value;
              if field.JNull? then ids == []
              else
                && field.JList? && |ids| == |field.items|
                && forall i | 0 <= i < |ids| :: field.items[i] == JStr(ids[i]) || (IsRecord(field.items[i]) && field.items[i].entries["id"] == JStr(ids[i]))
  {
  }

  /** Live, of the right platform, its cookies valid. */
  predicate Usable(a: Account, platform: string) {
    a.platform == platform && a.status == "200" && !a.expired
  }

  function Filter(accounts: seq<Account>, platform: string, locked: bool): (r: seq<Account>)
    ensures forall a :: a in r <==> a in accounts && Usable(a, platform) && a.locked == locked
  {
    if accounts == [] then []
    else
      var before, last := Filter(accounts[..|accounts| - 1], platform, locked), accounts[|accounts| - 1];
      assert accounts == accounts[..|accounts| - 1] + [last];
      if Usable(last, platform) && last.locked == locked then before + [last] else before
  }

  datatype AccountError = NoneAvailable | SeveralAvailable | OnlyLocked | NotFoundHere | WrongPlatform

  datatype Pick = Picked(id: string) | Refused(error: AccountError)

  /** `pick_or_explain`: only an unambiguous choice is made without being told. */
  function PickOrExplain(accounts: seq<Account>, platform: string): Pick {
    var unlocked := Filter(accounts, platform, false);
    if |unlocked| == 1 then Picked(unlocked[0].id)
    else if |unlocked| > 1 then Refused(SeveralAvailable)
    else if Filter(accounts, platform, true) != [] then Refused(OnlyLocked)
    else Refused(NoneAvailable)
  }

  function Find(accounts: seq<Account>, id: string): Option<Account> {
    if accounts == [] then None
    else if accounts[0].id == id then Some(accounts[0])
    else Find(accounts[1..], id)
  }

  /** `resolve_account` on an account that could be looked up: only its platform can refuse it. */
  function ResolveAccount(found: Option<Account>, platform: string): Pick {
    match found
    case None => Refused(NotFoundHere)
    case Some(a) => if a.platform == platform then Picked(a.id) else Refused(WrongPlatform)
  }

  ghost predicate OfPlatform(accounts: seq<Account>, id: string, platform: string) {
    exists a | a in accounts :: a.id == id && a.platform == platform
  }

  lemma {:induction false} FindFinds(accounts: seq<Account>, id: string)
    ensures Find(accounts, id).Some? ==> Find(accounts, id).value in accounts && Find(accounts, id).value.id == id
    ensures Find(accounts, id).None? ==> forall a | a in accounts :: a.id != id
  {
    if accounts != [] && accounts[0].id != id {
      FindFinds(accounts[1..], id);
      assert accounts == [accounts[0]] + accounts[1..];
    }
  }

  /** Whichever way an account is chosen, it is a connected one of the platform the crawler needs; and one
      chosen without being named is the only one that is healthy and unlocked. */
  lemma ChosenIsOfPlatform(accounts: seq<Account>, platform: string, id: string)
    ensures PickOrExplain(accounts, platform) == Picked(id) ==>
              OfPlatform(accounts, id, platform)
              && forall a | a in accounts && Usable(a, platform) && !a.locked :: a.id == id
    ensures ResolveAccount(Find(accounts, id), platform).Picked? ==>
              ResolveAccount(Find(accounts, id), platform) == Picked(id) && OfPlatform(accounts, id, platform)
  {
    var unlocked := Filter(accounts, platform, false);
    if |unlocked| == 1 {
      assert unlocked[0] in unlocked;
    }
    FindFinds(accounts, id);
  }

  lemma {:induction false} NoneFiltered(accounts: seq<Account>, platform: string)
    requires forall i | 0 <= i < |accounts| :: !Usable(accounts[i], platform) || accounts[i].locked
    ensures Filter(accounts, platform, false) == []
  {
    if accounts != [] {
      NoneFiltered(accounts[..|accounts| - 1], platform);
    }
  }

  lemma {:induction false} OneFiltered(accounts: seq<Account>, platform: string, i: nat)
    requires i < |accounts| && Usable(accounts[i], platform) && !accounts[i].locked
    requires forall j | 0 <= j < |accounts| && j != i :: !Usable(accounts[j], platform) || accounts[j].locked
    ensures Filter(accounts, platform, false) == [accounts[i]]
  {
    var init := accounts[..|accounts| - 1];
    if i == |init| {
      NoneFiltered(init, platform);
    } else {
      OneFiltered(init, platform, i);
    }
  }

  /** And the only healthy, unlocked account of the platform is always picked. */
  lemma OnlyCandidateIsPicked(accounts: seq<Account>, platform: string, i: nat)
    requires i < |accounts| && Usable(accounts[i], platform) && !accounts[i].locked
    requires forall j | 0 <= j < |accounts| && j != i :: !Usable(accounts[j], platform) || accounts[j].locked
    ensures PickOrExplain(accounts, platform) == Picked(accounts[i].id)
  {
    OneFiltered(accounts, platform, i);
  }

  /** A connected account of the platform, its status live and its cookies valid. */
  predicate Healthy(a: Account, platform: string) {
    a.platform == platform && a.status == "200" && !a.expired
  }

  /** An account is picked without being named exactly when one alone is healthy and unlocked, and it is that
      one; otherwise the answer says whether there are several, or only locked ones, or none. */
  lemma PickedIs(accounts: seq<Account>, platform: string)
    ensures match PickOrExplain(accounts, platform)
            case Picked(id) =>
              exists a | a in accounts :: a.id == id && Healthy(a, platform) && !a.locked
            case Refused(reason) =>
              && (reason == SeveralAvailable ==> exists a | a in accounts :: Healthy(a, platform) && !a.locked)
              && (reason == OnlyLocked || reason == NoneAvailable ==> forall a | a in accounts && Healthy(a, platform) :: a.locked)
              && (reason == OnlyLocked <==> (exists a | a in accounts :: Healthy(a, platform) && a.locked)
                                            && forall a | a in accounts && Healthy(a, platform) :: a.locked)
              && (reason == SeveralAvailable || reason == OnlyLocked || reason == NoneAvailable)
  {
    var unlocked, locked := Filter(accounts, platform, false), Filter(accounts, platform, true);
    forall a | a in accounts ensures Healthy(a, platform) <==> a in unlocked || a in locked {
    }
    if |unlocked| >= 1 {
      assert unlocked[0] in unlocked;
    }
    if locked != [] {
      assert locked[0] in locked;
    }
  }

  /** An account that is named is taken, healthy or not, exactly if it exists and is of the platform. */
  lemma NamedIs(accounts: seq<Account>, platform: string, id: string)
    ensures match ResolveAccount(Find(accounts, id), platform)
            case Picked(picked) => picked == id && OfPlatform(accounts, id, platform)
            case Refused(NotFoundHere) => forall a | a in accounts :: a.id != id
            case Refused(WrongPlatform) => exists a | a in accounts :: a.id == id && a.platform != platform
            case _ => false
  {
    FindFinds(accounts, id);
  }
}
