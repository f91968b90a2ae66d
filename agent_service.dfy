/**
 * The agent service: agents are stored with their location as a PostgreSQL point text
 * `(lon,lat)`, created with a unique agent code and updated field by field.
 *
 * A JavaScript number is modelled by the decimal digits `toString` prints for it: an
 * optional minus sign, the whole part and the fraction digits. `Number(text)` of those
 * digits is their exact value as a real. The repository is a map from agent id to the
 * stored row; the id the database generates is the parameter `newId`.
 */
module AgentService {
  import opened Wrappers
  import opened JsText

  /** The digits of a number as `toString` prints it without an exponent. */
  datatype Decimal = Decimal(negative: bool, whole: string, frac: string)

  type Number = d: Decimal | d.whole != [] && AllChars(d.whole, IsDigit) && AllChars(d.frac, IsDigit)
    witness Decimal(false, "0", "")

  function Pow10(n: nat): (r: nat)
    ensures r > 0
  {
    if n == 0 then 1 else 10 * Pow10(n - 1)
  }

  /** `Number(text)` of the digits. */
  function Value(d: Number): real
  {
    var magnitude := DigitsToNat(d.whole) as real + DigitsToNat(d.frac) as real / Pow10(|d.frac|) as real;
    if d.negative then -magnitude else magnitude
  }

  /** `n.toString()`. */
  function Render(d: Number): string
  {
    (if d.negative then "-" else "") + d.whole + (if d.frac == [] then "" else "." + d.frac)
  }

  datatype Coordinates = Coordinates(latitude: real, longitude: real)

  /** `buildPoint(lat, lon)`: undefined unless both are given, else `(lon,lat)`. */
  function BuildPoint(lat: Option<Number>, lon: Option<Number>): (r: Option<string>)
    ensures r.Some? <==> lat.Some? && lon.Some?
  {
    if lat.None? || lon.None? then None
    else Some("(" + (Render(lon.value) + ("," + (Render(lat.value) + ")"))))
  }

  /**
   * `-?\d+\.?\d*` at the start of `s`, and what follows it. The match is the greedy one:
   * a shorter match would end before a digit or a `.`, where neither `,` nor `)` can follow.
   */
  function ScanNumber(s: string): Option<(Number, string)>
  {
    if |s| > 0 && s[0] == '-' then ScanUnsigned(true, s[1..]) else ScanUnsigned(false, s)
  }

  /** `\d+\.?\d*` at the start of `t`, after the sign. */
  function ScanUnsigned(neg: bool, t: string): Option<(Number, string)>
  {
    var d1 := DigitRun(t);
    if d1 == 0 then None
    else
      var after := t[d1..];
      if |after| > 0 && after[0] == '.' then
        var d2 := DigitRun(after[1..]);
        Some((Decimal(neg, t[..d1], after[1..][..d2]), after[1..][d2..]))
      else Some((Decimal(neg, t[..d1], ""), after))
  }

  /** `\((-?\d+\.?\d*),(-?\d+\.?\d*)\)` matched at the start of `s`: longitude first. */
  function MatchAt(s: string): Option<Coordinates>
  {
    if |s| == 0 || s[0] != '(' then None
    else
      match ScanNumber(s[1..])
      case None => None
      case Some((lon, r1)) =>
        if |r1| == 0 || r1[0] != ',' then None
        else
          match ScanNumber(r1[1..])
          case None => None
          case Some((lat, r2)) =>
            if |r2| == 0 || r2[0] != ')' then None
            else Some(Coordinates(Value(lat), Value(lon)))
  }

  /** The pattern is not anchored: the leftmost position where it matches. */
  function FindPoint(s: string): Option<Coordinates>
  {
    if s == [] then None
    else if MatchAt(s).Some? then MatchAt(s)
    else FindPoint(s[1..])
  }

  /** `parsePoint(point)`: undefined for null, the empty string or no match. */
  function ParsePoint(point: Option<string>): (r: Option<Coordinates>)
    ensures point.None? || point.value == [] ==> r.None?
  {
    if point.None? || point.value == [] then None else FindPoint(point.value)
  }

  lemma ScanFraction(neg: bool, whole: string, frac: string, rest: string)
    requires whole != [] && AllChars(whole, IsDigit) && AllChars(frac, IsDigit) && frac != []
    requires rest != [] && !IsDigit(rest[0])
    ensures ScanUnsigned(neg, whole + ("." + frac + rest)) == Some((Decimal(neg, whole, frac), rest))
  {
    var tail := "." + frac + rest;
    var t := whole + tail;
    DigitRunOf(whole, tail);
    assert t[..|whole|] == whole && t[|whole|..] == tail;
    assert tail[1..] == frac + rest;
    DigitRunOf(frac, rest);
    assert tail[1..][..|frac|] == frac && tail[1..][|frac|..] == rest;
  }

  lemma ScanWhole(neg: bool, whole: string, rest: string)
    requires whole != [] && AllChars(whole, IsDigit)
    requires rest != [] && !IsDigit(rest[0]) && rest[0] != '.'
    ensures ScanUnsigned(neg, whole + rest) == Some((Decimal(neg, whole, ""), rest))
  {
    var t := whole + rest;
    DigitRunOf(whole, rest);
    assert t[..|whole|] == whole && t[|whole|..] == rest;
  }

  /** The sign is read first; the unsigned part must start with a digit. */
  lemma ScanSigned(neg: bool, t: string)
    requires t != [] && IsDigit(t[0])
    ensures ScanNumber((if neg then "-" else "") + t) == ScanUnsigned(neg, t)
  {
    if neg {
      assert ("-" + t)[1..] == t;
    } else {
      assert "" + t == t;
    }
  }

  /** What follows the sign of a rendered number, scanned back. */
  lemma ScanRenderUnsigned(d: Number, rest: string)
    requires rest != [] && !IsDigit(rest[0]) && rest[0] != '.'
    ensures var t := if d.frac == [] then d.whole + rest else d.whole + ("." + d.frac + rest);
      t != [] && IsDigit(t[0]) && ScanUnsigned(d.negative, t) == Some((d, rest))
  {
    if d.frac == [] {
      ScanWhole(d.negative, d.whole, rest);
      assert (d.whole + rest)[0] == d.whole[0];
    } else {
      ScanFraction(d.negative, d.whole, d.frac, rest);
      assert (d.whole + ("." + d.frac + rest))[0] == d.whole[0];
    }
  }

  lemma ScanRender(d: Number, rest: string)
    requires rest != [] && !IsDigit(rest[0]) && rest[0] != '.'
    ensures ScanNumber(Render(d) + rest) == Some((d, rest))
  {
    var t := if d.frac == [] then d.whole + rest else d.whole + ("." + d.frac + rest);
    assert Render(d) + rest == (if d.negative then "-" else "") + t;
    ScanRenderUnsigned(d, rest);
    ScanSigned(d.negative, t);
  }

  /** The pattern matches `(u,v)` at its first character when `u` and `v` scan as numbers up to the `,` and the `)`. */
  lemma MatchPair(u: string, v: string, lon: Number, lat: Number)
    requires ScanNumber(u + ("," + (v + ")"))) == Some((lon, "," + (v + ")")))
    requires ScanNumber(v + ")") == Some((lat, ")"))
    ensures MatchAt("(" + (u + ("," + (v + ")")))) == Some(Coordinates(Value(lat), Value(lon)))
  {
    var r1 := "," + (v + ")");
    assert ("(" + (u + r1))[1..] == u + r1;
    assert r1[1..] == v + ")";
  }

  /** The pattern matches a built point at its first character. */
  lemma MatchBuilt(lat: Number, lon: Number)
    ensures MatchAt("(" + (Render(lon) + ("," + (Render(lat) + ")")))) == Some(Coordinates(Value(lat), Value(lon)))
  {
    ScanRender(lon, "," + (Render(lat) + ")"));
    ScanRender(lat, ")");
    MatchPair(Render(lon), Render(lat), lon, lat);
  }

  /** Reading back a built point gives the coordinates it was built from, latitude and longitude in place. */
  lemma PointRoundTrip(lat: Number, lon: Number)
    ensures ParsePoint(BuildPoint(Some(lat), Some(lon))) == Some(Coordinates(Value(lat), Value(lon)))
  {
    MatchBuilt(lat, lon);
  }

  /** A missing or empty point reads as no location, and text with no point in it too. */
  lemma ParsePointRejects()
    ensures ParsePoint(None) == None && ParsePoint(Some("")) == None
    ensures ParsePoint(Some("()")) == None
  {
    assert FindPoint("()") == FindPoint(")") by {
      assert "()"[1..] == ")";
      assert ScanNumber(")") == None by { assert DigitRun(")") == 0; }
    }
    assert FindPoint(")") == FindPoint("");
  }

  /** The value of the digits: `-1.25` reads as -1.25. */
  lemma ValueExample()
    ensures Value(Decimal(true, "1", "25")) == -1.25
  {
    var w: string := "1";
    var f: string := "25";
    assert DigitsToNat(w) == 1 by { assert w[..0] == []; }
    assert DigitsToNat(f[..1]) == 2 by { assert f[..1][..0] == []; }
    assert DigitsToNat(f) == 25;
    assert Pow10(|f|) == 100;
    var m := 1.0 + 25 as real / 100 as real;
    assert m == 1.25;
  }

  datatype CreateAgentDto = CreateAgentDto(
    userId: string, agentCode: string, businessName: string,
    businessType: Option<string>, licenseNumber: Option<string>,
    latitude: Option<Number>, longitude: Option<Number>,
    address: Option<string>, county: Option<string>,
    dailyLimit: Option<Number>, monthlyLimit: Option<Number>, commissionRate: Option<Number>)

  datatype UpdateAgentDto = UpdateAgentDto(
    businessName: Option<string>, businessType: Option<string>, licenseNumber: Option<string>,
    address: Option<string>, county: Option<string>,
    latitude: Option<Number>, longitude: Option<Number>,
    dailyLimit: Option<Number>, monthlyLimit: Option<Number>, commissionRate: Option<Number>,
    isActive: Option<bool>)

  /** A stored agent row; limits and the commission rate are decimal text, the location point text. */
  datatype Agent = Agent(
    agentId: string, userId: string, agentCode: string, businessName: string,
    businessType: Option<string>, licenseNumber: Option<string>,
    address: Option<string>, county: Option<string>, location: Option<string>,
    dailyLimit: Option<string>, monthlyLimit: Option<string>, commissionRate: Option<string>,
    isActive: bool)

  /** What `mapAgent` returns: the row with its location read as coordinates. */
  datatype AgentView = AgentView(row: Agent, location: Option<Coordinates>)

  function MapAgent(a: Agent): (v: AgentView)
    ensures v.row == a && v.location == ParsePoint(a.location)
  {
    AgentView(a, ParsePoint(a.location))
  }

  /** `x !== undefined ? x.toString() : fallback`. */
  function NumberText(x: Option<Number>, fallback: Option<string>): Option<string>
  {
    if x.Some? then Some(Render(x.value)) else fallback
  }

  /** `x ?? fallback`. */
  function OrElse<T>(x: Option<T>, fallback: T): T
  {
    if x.Some? then x.value else fallback
  }

  /** The row `createAgent` saves; `is_active` takes the column default. */
  function NewAgent(p: CreateAgentDto, id: string, activeByDefault: bool): Agent
  {
    Agent(id, p.userId, p.agentCode, p.businessName, p.businessType, p.licenseNumber,
          p.address, p.county, BuildPoint(p.latitude, p.longitude),
          NumberText(p.dailyLimit, None), NumberText(p.monthlyLimit, None), NumberText(p.commissionRate, None),
          activeByDefault)
  }

  /** The row `updateAgent` saves. */
  function Merge(a: Agent, p: UpdateAgentDto): Agent
  {
    var location := if p.latitude.Some? && p.longitude.Some? then BuildPoint(p.latitude, p.longitude) else a.location;
    a.(location := location,
       businessName := OrElse(p.businessName, a.businessName),
       businessType := if p.businessType.Some? then p.businessType else a.businessType,
       licenseNumber := if p.licenseNumber.Some? then p.licenseNumber else a.licenseNumber,
       address := if p.address.Some? then p.address else a.address,
       county := if p.county.Some? then p.county else a.county,
       dailyLimit := NumberText(p.dailyLimit, a.dailyLimit),
       monthlyLimit := NumberText(p.monthlyLimit, a.monthlyLimit),
       commissionRate := NumberText(p.commissionRate, a.commissionRate),
       isActive := OrElse(p.isActive, a.isActive))
  }

  const NoChanges: UpdateAgentDto :=
    UpdateAgentDto(None, None, None, None, None, None, None, None, None, None, None)

  /** An update that gives nothing leaves the agent as it was. */
  lemma EmptyUpdateKeeps(a: Agent)
    ensures Merge(a, NoChanges) == a
  {
  }

  /**
   * Each field given replaces the stored one, each field left out keeps it; the location
   * moves only when both coordinates are given, and then reads back as them.
   */
  lemma MergeFields(a: Agent, p: UpdateAgentDto)
    ensures var m := Merge(a, p);
      && m.agentId == a.agentId && m.userId == a.userId && m.agentCode == a.agentCode
      && (p.businessName.None? ==> m.businessName == a.businessName)
      && (p.businessName.Some? ==> m.businessName == p.businessName.value)
      && (p.businessType.None? ==> m.businessType == a.businessType)
      && (p.businessType.Some? ==> m.businessType == p.businessType)
      && (p.licenseNumber.None? ==> m.licenseNumber == a.licenseNumber)
      && (p.licenseNumber.Some? ==> m.licenseNumber == p.licenseNumber)
      && (p.address.None? ==> m.address == a.address)
      && (p.address.Some? ==> m.address == p.address)
      && (p.county.None? ==> m.county == a.county)
      && (p.county.Some? ==> m.county == p.county)
      && (p.dailyLimit.None? ==> m.dailyLimit == a.dailyLimit)
      && (p.dailyLimit.Some? ==> m.dailyLimit == Some(Render(p.dailyLimit.value)))
      && (p.monthlyLimit.None? ==> m.monthlyLimit == a.monthlyLimit)
      && (p.monthlyLimit.Some? ==> m.monthlyLimit == Some(Render(p.monthlyLimit.value)))
      && (p.commissionRate.None? ==> m.commissionRate == a.commissionRate)
      && (p.commissionRate.Some? ==> m.commissionRate == Some(Render(p.commissionRate.value)))
      && (p.isActive.None? ==> m.isActive == a.isActive)
      && (p.isActive.Some? ==> m.isActive == p.isActive.value)
      && (p.latitude.None? || p.longitude.None? ==> m.location == a.location)
      && (p.latitude.Some? && p.longitude.Some? ==>
            ParsePoint(m.location) == Some(Coordinates(Value(p.latitude.value), Value(p.longitude.value))))
  {
    if p.latitude.Some? && p.longitude.Some? {
      PointRoundTrip(p.latitude.value, p.longitude.value);
    }
  }

  /** Applying the same update twice is the same as once. */
  lemma MergeIdempotent(a: Agent, p: UpdateAgentDto)
    ensures Merge(Merge(a, p), p) == Merge(a, p)
  {
  }

  /** A new agent's location reads back as the coordinates it was created with, or none if one is missing. */
  lemma NewAgentLocation(p: CreateAgentDto, id: string, activeByDefault: bool)
    ensures p.latitude.Some? && p.longitude.Some? ==>
      MapAgent(NewAgent(p, id, activeByDefault)).location == Some(Coordinates(Value(p.latitude.value), Value(p.longitude.value)))
    ensures p.latitude.None? || p.longitude.None? ==> MapAgent(NewAgent(p, id, activeByDefault)).location == None
  {
    if p.latitude.Some? && p.longitude.Some? {
      PointRoundTrip(p.latitude.value, p.longitude.value);
    }
  }

  /** Whether some stored agent already has the code. */
  predicate CodeTaken(agents: map<string, Agent>, code: string)
  {
    exists id :: id in agents && agents[id].agentCode == code
  }

  /** Rows are keyed by their own id and no two agents share an agent code. */
  predicate Keyed(agents: map<string, Agent>)
  {
    && (forall id :: id in agents ==> agents[id].agentId == id)
    && (forall i, j :: i in agents && j in agents && agents[i].agentCode == agents[j].agentCode ==> i == j)
  }

  /** Rewriting a row in place, with its id and its code kept, keeps the table keyed. */
  lemma ReplaceKeepsKeyed(agents: map<string, Agent>, id: string, a: Agent)
    requires Keyed(agents) && id in agents
    requires a.agentId == id && a.agentCode == agents[id].agentCode
    ensures Keyed(agents[id := a])
  {
  }

  class AgentRepository {
    var agents: map<string, Agent>

    predicate Valid()
      reads this
    {
      Keyed(agents)
    }

    constructor()
      ensures agents == map[] && Valid()
    {
      agents := map[];
    }

    /** `createAgent`: a taken code is refused and nothing is stored; otherwise the new row is saved. */
    method CreateAgent(p: CreateAgentDto, newId: string, activeByDefault: bool) returns (r: Result<AgentView>)
      requires Valid() && newId !in agents
      modifies this
      ensures Valid()
      ensures CodeTaken(old(agents), p.agentCode) ==> r == Err("Agent code already exists") && agents == old(agents)
      ensures !CodeTaken(old(agents), p.agentCode) ==>
        && agents == old(agents)[newId := NewAgent(p, newId, activeByDefault)]
        && r == Ok(MapAgent(NewAgent(p, newId, activeByDefault)))
      ensures r.Ok? ==> forall id :: id in agents && agents[id].agentCode == p.agentCode ==> id == newId
    {
      if CodeTaken(agents, p.agentCode) {
        return Err("Agent code already exists");
      }
      var agent := NewAgent(p, newId, activeByDefault);
      agents := agents[newId := agent];
      r := Ok(MapAgent(agent));
    }

    /** `getAgentById`. */
    function GetAgentById(id: string): (r: Option<AgentView>)
      reads this
      ensures r.Some? <==> id in agents
      ensures r.Some? ==> r.value == MapAgent(agents[id])
    {
      if id in agents then Some(MapAgent(agents[id])) else None
    }

    /** `updateAgent`: an unknown id is an error; otherwise the merged row replaces the old one. */
    method UpdateAgent(id: string, p: UpdateAgentDto) returns (r: Result<AgentView>)
      requires Valid()
      modifies this
      ensures Valid()
      ensures id !in old(agents) ==> r == Err("Agent not found") && agents == old(agents)
      ensures id in old(agents) ==>
        && agents == old(agents)[id := Merge(old(agents)[id], p)]
        && r == Ok(MapAgent(Merge(old(agents)[id], p)))
    {
      if id !in agents {
        return Err("Agent not found");
      }
      var agent := Merge(agents[id], p);
      ReplaceKeepsKeyed(agents, id, agent);
      agents := agents[id := agent];
      r := Ok(MapAgent(agent));
    }
  }
}
