/**
 * The query schema of the user listing: the `is_blocked[eq]` and
 * `is_active[eq]` strings become booleans, and `limit` and `offset` are
 * coerced to numbers and bounded. The tenant-location listing declares the
 * same `is_active[eq]` transform and the same bounds.
 *
 * `Number(...)` on a query string is an oracle: it yields a finite number or
 * `NaN` (`None`).
 */
module AppUserOpenApi {
  import opened Wrappers

  /**
   * The boolean transform of a flag: a missing value stays missing, and a
   * present one is false exactly for the empty string, `false` and `0`,
   * compared exactly (so `FALSE` or ` 0` are true).
   */
  function ParseBooleanFlag(value: Option<string>): (r: Option<bool>)
    ensures r.None? <==> value.None?
    ensures value.Some? ==> (r == Some(false) <==> value.value in {"", "false", "0"})
  {
    match value
    case None => None
    case Some(v) => Some(v != "" && v != "false" && v != "0")
  }

  /** The comparison is exact and case-sensitive: near misses of the false spellings are true. */
  lemma NearMissesAreTrue()
    ensures ParseBooleanFlag(Some("FALSE")) == Some(true)
    ensures ParseBooleanFlag(Some("False")) == Some(true)
    ensures ParseBooleanFlag(Some("no")) == Some(true)
    ensures ParseBooleanFlag(Some(" 0")) == Some(true)
    ensures ParseBooleanFlag(Some("00")) == Some(true)
  {
    assert "FALSE"[0] != "false"[0];
    assert "False"[0] != "false"[0];
  }

  /** The parsed query of the user listing. */
  datatype FindUsersQuery = FindUsersQuery(
    usernameLike: Option<string>,
    emailLike: Option<string>,
    tenantIdEq: Option<string>,
    roleEq: Option<string>,
    isBlocked: Option<bool>,
    isActive: Option<bool>,
    limit: real,
    offset: real,
    orderBy: Option<string>)

  function Lookup(query: map<string, string>, key: string): Option<string> {
    if key in query then Some(query[key]) else None
  }

  /** `z.coerce.number()`: a missing value is `Number(undefined)`, which is `NaN`. */
  function Coerce(toNumber: string -> Option<real>, value: Option<string>): Option<real> {
    if value.Some? then toNumber(value.value) else None
  }

  /** `limit` is within 1 to 1000, both included. */
  predicate ValidLimit(n: Option<real>) {
    n.Some? && 1.0 <= n.value <= 1000.0
  }

  /** `offset` is at least 0. */
  predicate ValidOffset(n: Option<real>) {
    n.Some? && 0.0 <= n.value
  }

  /**
   * The user-listing query schema: the query is accepted exactly when
   * `limit` and `offset` coerce to numbers within their bounds, and then the
   * strings are passed on and the two flags transformed. `None` is the
   * validation failure.
   */
  function ParseFindUsersQuery(query: map<string, string>, toNumber: string -> Option<real>)
    : (r: Option<FindUsersQuery>)
    ensures r.Some? <==> (&& ValidLimit(Coerce(toNumber, Lookup(query, "limit")))
                          && ValidOffset(Coerce(toNumber, Lookup(query, "offset"))))
    ensures r.Some? ==> 1.0 <= r.value.limit <= 1000.0 && 0.0 <= r.value.offset
    ensures r.Some? ==> (&& r.value.isBlocked == ParseBooleanFlag(Lookup(query, "is_blocked[eq]"))
                         && r.value.isActive == ParseBooleanFlag(Lookup(query, "is_active[eq]")))
    ensures r.Some? ==> (&& r.value.usernameLike == Lookup(query, "username[like]")
                         && r.value.emailLike == Lookup(query, "email[like]")
                         && r.value.tenantIdEq == Lookup(query, "tenant_id[eq]")
                         && r.value.roleEq == Lookup(query, "role[eq]")
                         && r.value.orderBy == Lookup(query, "order_by"))
  {
    var limit := Coerce(toNumber, Lookup(query, "limit"));
    var offset := Coerce(toNumber, Lookup(query, "offset"));
    if ValidLimit(limit) && ValidOffset(offset) then
      Some(FindUsersQuery(
        Lookup(query, "username[like]"), Lookup(query, "email[like]"), Lookup(query, "tenant_id[eq]"),
        Lookup(query, "role[eq]"), ParseBooleanFlag(Lookup(query, "is_blocked[eq]")),
        ParseBooleanFlag(Lookup(query, "is_active[eq]")), limit.value, offset.value, Lookup(query, "order_by")))
    else None
  }

  /** A query without `limit` or without `offset` is rejected: both are required. */
  lemma LimitAndOffsetRequired(query: map<string, string>, toNumber: string -> Option<real>)
    requires "limit" !in query || "offset" !in query
    ensures ParseFindUsersQuery(query, toNumber).None?
  {
  }

  /** The flags do not affect acceptance: changing them never turns an accepted query into a rejected one. */
  lemma FlagsDoNotAffectAcceptance(query: map<string, string>, toNumber: string -> Option<real>, key: string, v: string)
    requires key == "is_blocked[eq]" || key == "is_active[eq]"
    ensures ParseFindUsersQuery(query, toNumber).Some? == ParseFindUsersQuery(query[key := v], toNumber).Some?
  {
    assert Lookup(query[key := v], "limit") == Lookup(query, "limit");
    assert Lookup(query[key := v], "offset") == Lookup(query, "offset");
  }
}
