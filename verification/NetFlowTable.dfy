/** The template table: bounded, free of duplicate keys, and a map in which the latest definition
    wins. */
module NetFlowTable {
  import opened Options
  import opened Bytes
  import opened NetFlow

  datatype TemplateKey = TemplateKey(id: u16, source: u32)

  function KeyOf(t: Template): TemplateKey {
    TemplateKey(t.id, t.source)
  }

  ghost predicate TableInv(t: seq<Template>) {
    && |t| <= 64
    && forall i, j | 0 <= i < j < |t| :: KeyOf(t[i]) != KeyOf(t[j])
  }

  lemma RegisterKeeps(t: seq<Template>, id: u16, source: u32, fields: seq<Field>)
    requires TableInv(t)
    ensures TableInv(Register(t, id, source, fields))
  {
  }

  lemma {:induction false} TemplatesKeep(t: seq<Template>, mem: seq<byte>, p: nat, end: nat, source: u32)
    requires TableInv(t)
    ensures TableInv(ParseTemplates(t, mem, p, end, source))
    decreases end - p
  {
    hide Register, TableInv, Read16, ReadFields;
    if p + 4 <= end {
      var id, n: nat := Read16(mem, p), Read16(mem, p + 2);
      if p + 4 + n * 4 <= end {
        RegisterKeeps(t, id, source, ReadFields(mem, p + 4, n));
        TemplatesKeep(Register(t, id, source, ReadFields(mem, p + 4, n)), mem, p + 4 + n * 4, end, source);
      }
    }
  }

  lemma {:induction false} WalkKeeps(st: State, mem: seq<byte>, p: nat, end: nat, source: u32)
    requires TableInv(st.table)
    ensures TableInv(Walk(st, mem, p, end, source).table)
    decreases end - p
  {
    hide ParseTemplates, DataRecords, Buffered, TableInv, Read16;
    if p + 4 <= end {
      var id, length := Read16(mem, p), Read16(mem, p + 2);
      if !(length < 4 || p + length > end) {
        TemplatesKeep(st.table, mem, p + 4, p + length, source);
        WalkKeeps(Visit(st, mem, p + 4, p + length, id, source), mem, p + length, end, source);
      }
    }
  }

  /** Every packet, well-formed or not, keeps the table within 64 entries and free of duplicates;
      the table the collector starts with is so. */
  lemma PacketsKeepTable(st: State, mem: seq<byte>, len: nat)
    requires TableInv(st.table)
    ensures TableInv(Process(st, mem, len).1.table)
    ensures TableInv(Init().table)
  {
    hide Walk;
    if len >= HEADER_SIZE {
      WalkKeeps(st, mem, HEADER_SIZE, len, Read32(mem, 16));
    }
  }

  // ---- The table as a map ----

  type TemplateMap = map<TemplateKey, seq<Field>>

  function Abs(t: seq<Template>): TemplateMap {
    if t == [] then map[]
    else Abs(t[..|t| - 1])[KeyOf(t[|t| - 1]) := t[|t| - 1].fields]
  }

  /** The latest definition wins; only a new key is refused, and only when the table is full. */
  function MapRegister(m: TemplateMap, key: TemplateKey, fields: seq<Field>): TemplateMap {
    if key in m || |m| < MAX_TEMPLATES then m[key := fields] else m
  }

  lemma {:induction false} AbsAt(t: seq<Template>)
    requires forall i, j | 0 <= i < j < |t| :: KeyOf(t[i]) != KeyOf(t[j])
    ensures |Abs(t)| == |t|
    ensures forall i | 0 <= i < |t| :: KeyOf(t[i]) in Abs(t) && Abs(t)[KeyOf(t[i])] == t[i].fields
    ensures forall k | k in Abs(t) :: exists i | 0 <= i < |t| :: KeyOf(t[i]) == k
  {
    hide KeyOf;
    if t != [] {
      var u, s := t[..|t| - 1], t[|t| - 1];
      AbsAt(u);
      assert forall i | 0 <= i < |u| :: u[i] == t[i];
      assert KeyOf(s) !in Abs(u);
    }
  }

  lemma AbsIs(t: seq<Template>, m: TemplateMap)
    requires TableInv(t)
    requires forall i | 0 <= i < |t| :: KeyOf(t[i]) in m && m[KeyOf(t[i])] == t[i].fields
    requires forall k | k in m :: exists i | 0 <= i < |t| :: KeyOf(t[i]) == k
    ensures Abs(t) == m
  {
    hide Abs, KeyOf;
    AbsAt(t);
    forall k ensures k in Abs(t) <==> k in m
             ensures k in Abs(t) && k in m ==> Abs(t)[k] == m[k]
    {
      if k in Abs(t) {
        var i :| 0 <= i < |t| && KeyOf(t[i]) == k;
      }
      if k in m {
        var i :| 0 <= i < |t| && KeyOf(t[i]) == k;
      }
    }
  }

  /** get_template is the map lookup. */
  lemma FindIsLookup(t: seq<Template>, id: u16, source: u32)
    requires TableInv(t)
    ensures var i, key := FindTemplate(t, id, source), TemplateKey(id, source);
      && (i < |t| <==> key in Abs(t))
      && (i < |t| ==> Abs(t)[key] == t[i].fields)
  {
    hide Abs;
    AbsAt(t);
    var i, key := FindTemplate(t, id, source), TemplateKey(id, source);
    if key in Abs(t) {
      var j :| 0 <= j < |t| && KeyOf(t[j]) == key;
    }
    if i < |t| {
      assert KeyOf(t[i]) == key;
    }
  }

  lemma RegisterRefines(t: seq<Template>, id: u16, source: u32, fields: seq<Field>)
    requires TableInv(t)
    ensures Abs(Register(t, id, source, fields)) == MapRegister(Abs(t), TemplateKey(id, source), fields)
  {
    hide Abs;
    AbsAt(t);
    FindIsLookup(t, id, source);
    RegisterKeeps(t, id, source, fields);
    var i, key := FindTemplate(t, id, source), TemplateKey(id, source);
    var u, m := Register(t, id, source, fields), MapRegister(Abs(t), key, fields);
    if i < |t| {
      RegisteredOver(t, u, i, m, fields);
    } else if |t| < MAX_TEMPLATES {
      RegisteredNew(t, u, m, Template(id, source, fields));
    }
  }

  lemma RegisteredOver(t: seq<Template>, u: seq<Template>, i: nat, m: TemplateMap, fields: seq<Field>)
    requires TableInv(t) && TableInv(u) && i < |t| && u == t[i := t[i].(fields := fields)]
    requires m == Abs(t)[KeyOf(t[i]) := fields]
    ensures Abs(u) == m
  {
    hide Abs;
    AbsAt(t);
    assert forall k | 0 <= k < |t| :: KeyOf(u[k]) == KeyOf(t[k]);
    forall k | 0 <= k < |u| ensures KeyOf(u[k]) in m && m[KeyOf(u[k])] == u[k].fields {
      assert KeyOf(t[k]) in Abs(t);
    }
    forall key | key in m ensures exists k | 0 <= k < |u| :: KeyOf(u[k]) == key {
      var k :| 0 <= k < |t| && KeyOf(t[k]) == key;
      assert KeyOf(u[k]) == key;
    }
    AbsIs(u, m);
  }

  lemma RegisteredNew(t: seq<Template>, u: seq<Template>, m: TemplateMap, s: Template)
    requires TableInv(t) && u == t + [s]
    requires m == Abs(t)[KeyOf(s) := s.fields]
    ensures Abs(u) == m
  {
    assert u[..|t|] == t;
  }

  // ---- A sequence of definitions ----

  datatype Def = Def(key: TemplateKey, fields: seq<Field>)

  function RegisterAll(m: TemplateMap, defs: seq<Def>): TemplateMap {
    if defs == [] then m
    else MapRegister(RegisterAll(m, defs[..|defs| - 1]), defs[|defs| - 1].key, defs[|defs| - 1].fields)
  }

  /** The last definition of a key. */
  function LastDef(defs: seq<Def>, key: TemplateKey): Option<seq<Field>> {
    if defs == [] then None
    else if defs[|defs| - 1].key == key then Some(defs[|defs| - 1].fields)
    else LastDef(defs[..|defs| - 1], key)
  }

  /** Over any sequence of definitions: the map never grows past 64, no key is lost, a key in it has
      its latest definition, and a defined key is missing only from a full map. */
  lemma {:induction false} LatestInMap(m: TemplateMap, defs: seq<Def>, key: TemplateKey)
    requires |m| <= MAX_TEMPLATES
    ensures var r, d := RegisterAll(m, defs), LastDef(defs, key);
      && |m| <= |r| <= MAX_TEMPLATES
      && (key in m ==> key in r)
      && (key in r && d.Some? ==> r[key] == d.value)
      && (key in r && d.None? ==> key in m && r[key] == m[key])
      && (d.Some? && key !in r ==> |r| == MAX_TEMPLATES)
  {
    if defs != [] {
      LatestInMap(m, defs[..|defs| - 1], key);
      LatestInMap(m, defs[..|defs| - 1], defs[|defs| - 1].key);
    }
  }

  lemma {:induction false} RegisterAllSplit(m: TemplateMap, xs: seq<Def>, ys: seq<Def>)
    ensures RegisterAll(m, xs + ys) == RegisterAll(RegisterAll(m, xs), ys)
    decreases |ys|
  {
    hide MapRegister;
    if ys == [] {
      assert xs + ys == xs;
    } else {
      assert (xs + ys)[..|xs + ys| - 1] == xs + ys[..|ys| - 1];
      RegisterAllSplit(m, xs, ys[..|ys| - 1]);
    }
  }

  // ---- The definitions bytes hold ----

  /** The definitions in a template FlowSet body, up to the first truncated one. */
  function DefsIn(mem: seq<byte>, p: nat, end: nat, source: u32): seq<Def>
    decreases end - p
  {
    if p + 4 > end then []
    else
      var id, n := Read16(mem, p), Read16(mem, p + 2);
      if p + 4 + n * 4 > end then []
      else [Def(TemplateKey(id, source), ReadFields(mem, p + 4, n))] + DefsIn(mem, p + 4 + n * 4, end, source)
  }

  /** The definitions in the template FlowSets of a packet. */
  function WalkDefs(mem: seq<byte>, p: nat, end: nat, source: u32): seq<Def>
    decreases end - p
  {
    if p + 4 > end then []
    else
      var id, length := Read16(mem, p), Read16(mem, p + 2);
      if length < 4 || p + length > end then []
      else (if id == 0 then DefsIn(mem, p + 4, p + length, source) else []) + WalkDefs(mem, p + length, end, source)
  }

  function PacketDefs(mem: seq<byte>, len: nat): seq<Def> {
    if len < HEADER_SIZE then [] else WalkDefs(mem, HEADER_SIZE, len, Read32(mem, 16))
  }

  lemma OneRegistered(m: TemplateMap, d: Def)
    ensures RegisterAll(m, [d]) == MapRegister(m, d.key, d.fields)
  {
    assert [d][..0] == [];
  }

  /** parse_template_flowset on any bytes registers the definitions they hold, one after the other. */
  lemma {:induction false} TemplatesRefine(t: seq<Template>, mem: seq<byte>, p: nat, end: nat, source: u32)
    requires TableInv(t)
    ensures Abs(ParseTemplates(t, mem, p, end, source)) == RegisterAll(Abs(t), DefsIn(mem, p, end, source))
    decreases end - p
  {
    hide Register, TableInv, Read16, ReadFields, Abs, RegisterAll, MapRegister;
    NoneRegistered(Abs(t));
    if p + 4 <= end {
      var id, n: nat := Read16(mem, p), Read16(mem, p + 2);
      if p + 4 + n * 4 <= end {
        var fields := ReadFields(mem, p + 4, n);
        var d := Def(TemplateKey(id, source), fields);
        RegisterKeeps(t, id, source, fields);
        RegisterRefines(t, id, source, fields);
        OneRegistered(Abs(t), d);
        TemplatesRefine(Register(t, id, source, fields), mem, p + 4 + n * 4, end, source);
        RegisterAllSplit(Abs(t), [d], DefsIn(mem, p + 4 + n * 4, end, source));
      }
    }
  }

  lemma NoneRegistered(m: TemplateMap)
    ensures RegisterAll(m, []) == m
  {
  }

  lemma {:induction false} WalkRefines(st: State, mem: seq<byte>, p: nat, end: nat, source: u32)
    requires TableInv(st.table)
    ensures Abs(Walk(st, mem, p, end, source).table) == RegisterAll(Abs(st.table), WalkDefs(mem, p, end, source))
    decreases end - p
  {
    hide ParseTemplates, DataRecords, Buffered, TableInv, Read16, Abs, RegisterAll, DefsIn;
    NoneRegistered(Abs(st.table));
    if p + 4 <= end {
      var id, length := Read16(mem, p), Read16(mem, p + 2);
      if !(length < 4 || p + length > end) {
        TemplatesKeep(st.table, mem, p + 4, p + length, source);
        TemplatesRefine(st.table, mem, p + 4, p + length, source);
        WalkRefines(Visit(st, mem, p + 4, p + length, id, source), mem, p + length, end, source);
        RegisterAllSplit(Abs(st.table), if id == 0 then DefsIn(mem, p + 4, p + length, source) else [],
                         WalkDefs(mem, p + length, end, source));
      }
    }
  }

  /** A packet of any bytes acts on the table as its definitions act on a map. */
  lemma PacketRefines(st: State, mem: seq<byte>, len: nat)
    requires TableInv(st.table)
    ensures Abs(Process(st, mem, len).1.table) == RegisterAll(Abs(st.table), PacketDefs(mem, len))
  {
    hide Walk, WalkDefs, Abs, RegisterAll, TableInv, Read32;
    NoneRegistered(Abs(st.table));
    if len >= HEADER_SIZE {
      WalkRefines(st, mem, HEADER_SIZE, len, Read32(mem, 16));
    }
  }

  // ---- Any number of packets ----

  datatype Packet = Packet(mem: seq<byte>, len: nat)

  /** The packets processed one after the other, the buffer flushed before each. */
  function TableAfter(t: seq<Template>, packets: seq<Packet>): seq<Template> {
    if packets == [] then t
    else
      var last := packets[|packets| - 1];
      Process(State(TableAfter(t, packets[..|packets| - 1]), []), last.mem, last.len).1.table
  }

  function AllDefs(packets: seq<Packet>): seq<Def> {
    if packets == [] then []
    else AllDefs(packets[..|packets| - 1]) + PacketDefs(packets[|packets| - 1].mem, packets[|packets| - 1].len)
  }

  lemma {:induction false} PacketsRefine(t: seq<Template>, packets: seq<Packet>)
    requires TableInv(t)
    ensures TableInv(TableAfter(t, packets))
    ensures Abs(TableAfter(t, packets)) == RegisterAll(Abs(t), AllDefs(packets))
  {
    hide TableInv, Abs, RegisterAll, Process, PacketDefs;
    NoneRegistered(Abs(t));
    if packets != [] {
      var front, last := packets[..|packets| - 1], packets[|packets| - 1];
      PacketsRefine(t, front);
      PacketsKeepTable(State(TableAfter(t, front), []), last.mem, last.len);
      PacketRefines(State(TableAfter(t, front), []), last.mem, last.len);
      RegisterAllSplit(Abs(t), AllDefs(front), PacketDefs(last.mem, last.len));
    }
  }

  /** What get_template finds for a key. */
  function Found(t: seq<Template>, key: TemplateKey): Option<seq<Field>> {
    var i := FindTemplate(t, key.id, key.source);
    if i < |t| then Some(t[i].fields) else None
  }

  /** After any packets, well-formed or not: the table has grown to at most 64, no key is lost, a key
      found has the latest definition the packets hold, and a defined key is missing only from a
      full table. */
  lemma LatestDefinitionWins(t: seq<Template>, packets: seq<Packet>, key: TemplateKey)
    requires TableInv(t)
    ensures var u, d := TableAfter(t, packets), LastDef(AllDefs(packets), key);
      && TableInv(u) && |t| <= |u|
      && (Found(t, key).Some? ==> Found(u, key).Some?)
      && (Found(u, key).Some? ==> Found(u, key) == if d.Some? then d else Found(t, key))
      && (d.Some? && Found(u, key).None? ==> |u| == 64)
  {
    hide Abs, RegisterAll, TableAfter, AllDefs, LastDef;
    PacketsRefine(t, packets);
    var u := TableAfter(t, packets);
    FindIsLookup(t, key.id, key.source);
    FindIsLookup(u, key.id, key.source);
    SizeIs(t);
    SizeIs(u);
    LatestInMap(Abs(t), AllDefs(packets), key);
  }

  lemma SizeIs(t: seq<Template>)
    requires TableInv(t)
    ensures |Abs(t)| == |t| <= MAX_TEMPLATES
  {
    hide Abs;
    AbsAt(t);
  }
}
