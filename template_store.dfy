/**
 * The `biometric_templates` table of the Python biometric service and the three queries
 * the database service runs against it. The table is a map keyed by the
 * UNIQUE(user_id, template_type) constraint, so at most one row per key exists by
 * construction; `Valid` adds the primary-key uniqueness of `template_id`.
 *
 * The database clock (CURRENT_TIMESTAMP) and the generated UUID are parameters.
 */
module TemplateStore {
  import opened Wrappers

  datatype Key = Key(userId: string, templateType: string)

  datatype Row = Row(templateId: string, data: string, quality: real, isActive: bool,
                     createdAt: int, updatedAt: int)

  /** The dictionary `get_biometric_template` returns. */
  datatype Fetched = Fetched(templateId: string, data: string, quality: real, createdAt: int)

  /** Rounding half away from zero to two decimals, as a DECIMAL(3,2) column stores a value. */
  function Round2(q: real): (r: real)
    ensures -0.005 <= r - q < 0.005 || -0.005 < r - q <= 0.005
  {
    if q >= 0.0 then ((q * 100.0 + 0.5).Floor as real) / 100.0
    else -((((-q) * 100.0 + 0.5).Floor as real) / 100.0)
  }

  /**
   * The value DECIMAL(3,2) keeps, or `None` for a numeric field overflow: three digits of
   * precision leave at most 9.99 in magnitude after rounding.
   */
  function StoredQuality(q: real): (r: Option<real>)
    ensures r.Some? ==> -10.0 < r.value < 10.0
    ensures 0.0 <= q <= 1.0 ==> r.Some? && 0.0 <= r.value <= 1.0
  {
    var v := Round2(q);
    if v <= -10.0 || v >= 10.0 then None else Some(v)
  }

  /** A quality already on the two-decimal grid is stored unchanged. */
  lemma StoredQualityExact(cents: int)
    requires -999 <= cents <= 999
    ensures StoredQuality(cents as real / 100.0) == Some(cents as real / 100.0)
  {
    var q := cents as real / 100.0;
    var c := if cents >= 0 then cents else -cents;
    assert (c as real + 0.5).Floor == c;
    if cents >= 0 {
      assert q * 100.0 == c as real;
      assert Round2(q) == c as real / 100.0;
    } else {
      assert (-q) * 100.0 == c as real;
      assert Round2(q) == -(c as real / 100.0);
    }
  }

  /** The `DO UPDATE SET` of the upsert as written: data, quality and updated_at only. */
  function UpsertRowAsWritten(r: Row, data: string, quality: real, now: int): Row
  {
    r.(data := data, quality := quality, updatedAt := now)
  }

  /** The upsert with re-enrolment re-activating the row, which the rest of the model uses. */
  function UpsertRow(r: Row, data: string, quality: real, now: int): (r': Row)
    ensures r'.isActive && r'.templateId == r.templateId && r'.createdAt == r.createdAt
    ensures r'.data == data && r'.quality == quality && r'.updatedAt == now
  {
    r.(data := data, quality := quality, updatedAt := now, isActive := true)
  }

  /** The INSERT branch: a new active row with the generated id. */
  function NewRow(id: string, data: string, quality: real, now: int): Row
  {
    Row(id, data, quality, true, now, now)
  }

  /** The SELECT of `get_biometric_template`: only an active row is returned. */
  function FetchRow(r: Option<Row>): (f: Option<Fetched>)
    ensures f.Some? <==> r.Some? && r.value.isActive
    ensures f.Some? ==> (f.value.data == r.value.data && f.value.templateId == r.value.templateId
                      && f.value.quality == r.value.quality)
  {
    match r
    case Some(row) => if row.isActive then Some(Fetched(row.templateId, row.data, row.quality, row.createdAt)) else None
    case None => None
  }

  /**
   * Re-enrolling after a deactivation with the upsert as written leaves the row inactive,
   * so the freshly stored template can never be fetched.
   */
  lemma ReenrolAsWrittenStaysHidden(r: Row, data: string, quality: real, now: int)
    requires !r.isActive
    ensures FetchRow(Some(UpsertRowAsWritten(r, data, quality, now))) == None
  {
  }

  lemma ReenrolIsVisible(r: Row, data: string, quality: real, now: int)
    ensures FetchRow(Some(UpsertRow(r, data, quality, now)))
         == Some(Fetched(r.templateId, data, quality, r.createdAt))
  {
  }

  class Store {
    var rows: map<Key, Row>

    /** PRIMARY KEY(template_id): no two keys share an id. */
    ghost predicate Valid()
      reads this
    {
      forall k1, k2 :: k1 in rows && k2 in rows && k1 != k2 ==> rows[k1].templateId != rows[k2].templateId
    }

    ghost predicate IdInUse(id: string)
      reads this
    {
      exists k :: k in rows && rows[k].templateId == id
    }

    constructor ()
      ensures Valid() && rows == map[]
    {
      rows := map[];
    }

    /** `get_biometric_template`. */
    function Get(userId: string, templateType: string): (f: Option<Fetched>)
      reads this
      ensures f.Some? <==> Key(userId, templateType) in rows && rows[Key(userId, templateType)].isActive
      ensures f.Some? ==> f.value.data == rows[Key(userId, templateType)].data
    {
      var k := Key(userId, templateType);
      FetchRow(if k in rows then Some(rows[k]) else None)
    }

    /**
     * `store_biometric_template`: INSERT ... ON CONFLICT (user_id, template_type) DO UPDATE,
     * returning the row's template_id. An existing row keeps its id and creation time.
     * A quality DECIMAL(3,2) cannot hold fails the statement and changes nothing.
     */
    method StoreTemplate(userId: string, templateType: string, data: string, quality: real,
                         freshId: string, now: int) returns (r: Result<string>)
      requires Valid() && !IdInUse(freshId)
      modifies this
      ensures Valid()
      ensures StoredQuality(quality).None? ==> r == Err("numeric field overflow") && rows == old(rows)
      ensures StoredQuality(quality).Some? ==> r.Ok?
      ensures r.Ok? ==> var k := Key(userId, templateType);
        && rows.Keys == old(rows.Keys) + {k}
        && (forall k' :: k' in old(rows) && k' != k ==> rows[k'] == old(rows)[k'])
        && (k in old(rows) ==> rows[k] == UpsertRow(old(rows)[k], data, StoredQuality(quality).value, now))
        && (k !in old(rows) ==> rows[k] == NewRow(freshId, data, StoredQuality(quality).value, now))
        && r.value == rows[k].templateId
        && Get(userId, templateType) == Some(Fetched(r.value, data, StoredQuality(quality).value, rows[k].createdAt))
    {
      var k := Key(userId, templateType);
      var q := StoredQuality(quality);
      if q.None? {
        return Err("numeric field overflow");
      }
      if k in rows {
        rows := rows[k := UpsertRow(rows[k], data, q.value, now)];
      } else {
        rows := rows[k := NewRow(freshId, data, q.value, now)];
      }
      r := Ok(rows[k].templateId);
    }

    /** `deactivate_template`: the UPDATE touches at most one row; true iff it touched one. */
    method Deactivate(userId: string, templateType: string, now: int) returns (changed: bool)
      requires Valid()
      modifies this
      ensures Valid()
      ensures changed <==> Key(userId, templateType) in old(rows)
      ensures rows.Keys == old(rows.Keys)
      ensures forall k :: k in rows && k != Key(userId, templateType) ==> rows[k] == old(rows)[k]
      ensures changed ==> rows[Key(userId, templateType)]
                          == old(rows)[Key(userId, templateType)].(isActive := false, updatedAt := now)
      ensures Get(userId, templateType) == None
    {
      var k := Key(userId, templateType);
      changed := k in rows;
      if changed {
        rows := rows[k := rows[k].(isActive := false, updatedAt := now)];
      }
    }
  }
}
