/** The task routes (backend/routes/tasks.js): the ownership rule guarding
    edit and delete, and the paging and sort arithmetic of the list query. */
module TaskRoute {
  import opened Common
  import opened Text
  import opened Records
  import Numeric

  /** `(x || '').trim().toLowerCase()`; a missing header or field is `''`. */
  function Normalize(s: string): string {
    ToLower(Trim(s))
  }

  /** The 403 condition: a known user who is neither the task's owner nor its
      creator, on a task that has an owner. */
  predicate Refused(user: string, owner: string, creator: string) {
    var u, o, c := Normalize(user), Normalize(owner), Normalize(creator);
    u != "" && o != "" && u != o && u != c
  }

  /** A name normalizes to `''` exactly when it is blank. */
  lemma NormalizeEmptyIffBlank(s: string)
    ensures Normalize(s) == "" <==> IsBlank(s)
  {
    TrimEmptyIffBlank(s);
  }

  /** A blank header user or a blank owner never refuses. */
  lemma BlankNeverRefused(user: string, owner: string, creator: string)
    requires IsBlank(user) || IsBlank(owner)
    ensures !Refused(user, owner, creator)
  {
    NormalizeEmptyIffBlank(user);
    NormalizeEmptyIffBlank(owner);
  }

  /** The owner and the creator, written with any spacing or case, are never
      refused; every other known user is refused on an owned task. */
  lemma RefusedExactly(user: string, owner: string, creator: string)
    ensures Refused(user, owner, creator) <==>
              !IsBlank(user) && !IsBlank(owner)
              && Normalize(user) != Normalize(owner) && Normalize(user) != Normalize(creator)
  {
    NormalizeEmptyIffBlank(user);
    NormalizeEmptyIffBlank(owner);
  }

  /** Upper-case letters and surrounding spaces do not matter. */
  lemma NormalizeIgnoresSpacingAndCase(s: string)
    ensures Normalize(" " + ToUpper(s) + " ") == Normalize(s)
  {
    var u := ToUpper(s);
    assert " " + u + " " == [' '] + (u + [' ']);
    calc {
      Trim(" " + u + " ");
      Trim([' '] + (u + [' ']));
      { TrimDropsLeadingSpace(' ', u + [' ']); }
      Trim(u + [' ']);
      { TrimDropsTrailingSpace(u, ' '); }
      Trim(u);
      { TrimOfUpper(s); }
      ToUpper(Trim(s));
    }
    LowerForgetsCase(Trim(s));
  }

  /** Trimming commutes with upper-casing, since case mapping keeps spaces. */
  lemma {:induction false} TrimOfUpper(s: string)
    ensures Trim(ToUpper(s)) == ToUpper(Trim(s))
  {
    TrimStartOfUpper(s);
    TrimEndOfUpper(TrimStart(s));
  }

  lemma {:induction false} TrimStartOfUpper(s: string)
    ensures TrimStart(ToUpper(s)) == ToUpper(TrimStart(s))
  {
    if s != [] {
      var u := ToUpper(s);
      assert u[1..] == ToUpper(s[1..]);
      UpperKeepsSpace(s[0]);
      TrimStartOfUpper(s[1..]);
    }
  }

  lemma {:induction false} TrimEndOfUpper(s: string)
    ensures TrimEnd(ToUpper(s)) == ToUpper(TrimEnd(s))
  {
    if s != [] {
      var n := |s| - 1;
      var u := ToUpper(s);
      assert u[..n] == ToUpper(s[..n]);
      UpperKeepsSpace(s[n]);
      TrimEndOfUpper(s[..n]);
    }
  }

  /** Upper-casing maps letters to letters and leaves everything else. */
  lemma UpperKeepsSpace(c: char)
    ensures IsSpace(UpperChar(c)) <==> IsSpace(c)
  {
    if 'a' <= c <= 'z' {
      assert 'A' <= UpperChar(c) <= 'Z';
    } else {
      assert UpperChar(c) == c;
    }
  }

  datatype Verb = Edit | Delete

  /** What the guard lets through. */
  datatype Outcome = Proceed | Fail(status: int, error: string)

  function RefusalMessage(v: Verb): string {
    match v
    case Edit => "You can only edit your own tasks"
    case Delete => "You can only delete your own tasks"
  }

  /** The start of the PUT and DELETE handlers: 404 for a missing task, then
      the ownership check. */
  function Guard(existing: Option<TaskRec>, header: string, v: Verb): (r: Outcome)
    ensures existing.None? <==> r == Fail(404, "Task not found")
    ensures r.Fail? && r.status == 403 <==>
              existing.Some? && Refused(header, existing.value.owner, existing.value.createdBy)
  {
    if existing.None? then Fail(404, "Task not found")
    else if Refused(header, existing.value.owner, existing.value.createdBy) then Fail(403, RefusalMessage(v))
    else Proceed
  }

  /** Edit and delete apply the same rule; only the message differs. */
  lemma EditDeleteSameRule(existing: Option<TaskRec>, header: string)
    ensures Guard(existing, header, Edit).Proceed? == Guard(existing, header, Delete).Proceed?
    ensures Guard(existing, header, Edit).Fail? ==>
              Guard(existing, header, Edit).status == Guard(existing, header, Delete).status
  {
  }

  /** `(page - 1) * limit`. */
  function Skip(page: int, limit: int): int {
    (page - 1) * limit
  }

  /** `Math.ceil(total / limit)`: the least integer `r` with
      `total / limit <= r`. With a zero limit JavaScript yields no integer
      (`Infinity` or `NaN`), modelled as `None`; a negative limit, which
      `parseInt` lets through, gives zero or a negative count. */
  function Pages(total: nat, limit: int): (r: Option<int>)
    ensures limit == 0 <==> r.None?
    ensures limit > 0 ==> (r.value - 1) * limit < total <= r.value * limit
    ensures limit < 0 ==> r.value <= 0 && r.value * limit <= total < (r.value - 1) * limit
  {
    if limit > 0 then Some(Numeric.CeilDiv(total, limit))
    else if limit < 0 then Some(-(total / -limit))
    else None
  }

  /** With a positive limit, record `k` of `total` lies on exactly one page
      among `1..pages`, the one whose window `[skip, skip + limit)` holds it. */
  lemma PageOfRecord(total: nat, limit: int, k: nat)
    requires limit > 0 && k < total
    ensures var p := k / limit + 1;
            1 <= p <= Pages(total, limit).value
            && Skip(p, limit) <= k < Skip(p, limit) + limit
            && forall q :: Skip(q, limit) <= k < Skip(q, limit) + limit ==> q == p
  {
    var p := k / limit + 1;
    var pages := Pages(total, limit).value;
    assert Skip(p, limit) == (k / limit) * limit <= k < (k / limit) * limit + limit;
    ScaledMonotone(limit, pages, k / limit);
    forall q | Skip(q, limit) <= k < Skip(q, limit) + limit ensures q == p {
      WindowsDisjoint(limit, k, p, q);
    }
  }

  lemma ScaledMonotone(limit: int, a: int, b: int)
    requires limit > 0
    ensures a <= b ==> a * limit <= b * limit
  {
    if a <= b {
      Numeric.ProductNonNeg(limit, b - a);
      assert b * limit - a * limit == limit * (b - a);
    }
  }

  /** Two pages whose windows both hold record `k` are the same page. */
  lemma WindowsDisjoint(limit: int, k: int, p: int, q: int)
    requires limit > 0
    requires Skip(p, limit) <= k < Skip(p, limit) + limit
    requires Skip(q, limit) <= k < Skip(q, limit) + limit
    ensures p == q
  {
    ScaledMonotone(limit, q, p - 1);
    ScaledMonotone(limit, p, q - 1);
    assert Skip(p, limit) + limit == p * limit && Skip(q, limit) + limit == q * limit;
  }

  /** `sortOrder === 'asc' ? 1 : -1` with `'desc'` as the default. */
  function SortDirection(sortOrder: Option<string>): (d: int)
    ensures d == 1 || d == -1
    ensures d == 1 <==> sortOrder == Some("asc")
  {
    if sortOrder.GetOr("desc") == "asc" then 1 else -1
  }
}
