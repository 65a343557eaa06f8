/** Telemetry stays inside tenant boundaries: an emitter without a chosen tenant
    sends every point once per tenant of a scope that all such emitters share and
    that can be replaced later; choosing a tenant leaves the scope behind. */
module TenantEmitter {
  import opened Basics
  import opened GoStrings

  datatype Attr = Attr(key: string, value: string)

  datatype Device = Device(id: string, name: string, mac: string, model: string, site: string)

  const TENANT_KEY := "tenant.id"
  const DISCOVERY := "_discovery"

  predicate Blank(s: string) {
    TrimSpace(s) == ""
  }

  // -------------------------------------------------- the emitter underneath

  /** The OpenTelemetry emitter: a list of attributes stamped on every point. */
  datatype Base = Base(attrs: seq<Attr>)

  function BaseWithTenant(b: Base, id: string): Base {
    Base(b.attrs + [Attr(TENANT_KEY, id)])
  }

  function NonEmpty(attrs: seq<Attr>): seq<Attr> {
    if attrs == [] then []
    else
      var before := NonEmpty(attrs[..|attrs| - 1]);
      if attrs[|attrs| - 1].value != "" then before + [attrs[|attrs| - 1]] else before
  }

  function DeviceAttrs(d: Device): seq<Attr> {
    [Attr("device.id", d.id), Attr("device.name", d.name), Attr("device.mac", d.mac), Attr("device.model", d.model),
     Attr("site.name", d.site)]
  }

  function BaseWithDevice(b: Base, d: Device): Base {
    Base(b.attrs + NonEmpty(DeviceAttrs(d)))
  }

  /** A recorded point: attributes with a blank key are dropped. */
  datatype Record = Record(name: string, attrs: seq<Attr>)

  function Named(attrs: seq<Attr>): seq<Attr> {
    if attrs == [] then []
    else
      var before := Named(attrs[..|attrs| - 1]);
      if attrs[|attrs| - 1].key != "" then before + [attrs[|attrs| - 1]] else before
  }

  function BaseRecord(b: Base, name: string, extra: seq<Attr>): Record {
    Record(name, Named(b.attrs + extra))
  }

  /** The value that counts for a key: attribute sets keep the last one. */
  function LastValue(attrs: seq<Attr>, key: string): Option<string> {
    if attrs == [] then None
    else if attrs[|attrs| - 1].key == key then Some(attrs[|attrs| - 1].value)
    else LastValue(attrs[..|attrs| - 1], key)
  }

  function TenantOf(r: Record): Option<string> {
    LastValue(r.attrs, TENANT_KEY)
  }

  // ------------------------------------------------------------- tenant scope

  /** The shared list of tenants. */
  class Scope {
    var tenants: seq<string>

    constructor ()
      ensures tenants == []
    {
      tenants := [];
    }

    /** Replaces the list by the trimmed tenants, without blanks and repetitions. */
    method SetTenants(list: seq<string>)
      modifies this
      ensures tenants == Clean(list)
    {
      var seen: set<string> := {};
      var clean: seq<string> := [];
      for i := 0 to |list|
        invariant clean == Clean(list[..i])
        invariant seen == set t | t in clean
      {
        assert list[..i + 1][..i] == list[..i];
        var tenant := TrimSpace(list[i]);
        if tenant == "" || tenant in seen {
          continue;
        }
        seen := seen + {tenant};
        clean := clean + [tenant];
      }
      assert list[..|list|] == list;
      tenants := clean;
    }
  }

  function Clean(list: seq<string>): seq<string> {
    if list == [] then []
    else
      var before := Clean(list[..|list| - 1]);
      var tenant := TrimSpace(list[|list| - 1]);
      if tenant == "" || tenant in before then before else before + [tenant]
  }

  /** The clean list holds each trimmed non-blank tenant exactly once, and nothing else. */
  lemma {:induction false} CleanIsExact(list: seq<string>)
    ensures forall i, j :: 0 <= i < j < |Clean(list)| ==> Clean(list)[i] != Clean(list)[j]
    ensures forall t :: t in Clean(list) <==> t != "" && exists s :: s in list && TrimSpace(s) == t
  {
    if list != [] {
      var n := |list| - 1;
      CleanIsExact(list[..n]);
      assert list == list[..n] + [list[n]];
      forall t
        ensures t in Clean(list) <==> t != "" && exists s :: s in list && TrimSpace(s) == t
      {
        if t == TrimSpace(list[n]) {
          assert list[n] in list;
        }
      }
    }
  }

  // ---------------------------------------------------------- tenant emitters

  /** What callers hold: a fanning emitter on the shared scope, or a plain one. */
  datatype Emitter = Fanning(base: Base, scope: Scope) | Plain(base: Base)

  function WithTenant(e: Emitter, id: string): Emitter {
    if e.Fanning? && Blank(id) then e else Plain(BaseWithTenant(e.base, id))
  }

  function WithDevice(e: Emitter, d: Device): Emitter {
    e.(base := BaseWithDevice(e.base, d))
  }

  /** The tenants a fanning emitter sends to when its scope holds some list. */
  function Targets(tenants: seq<string>): seq<string> {
    if tenants == [] then [DISCOVERY] else tenants
  }

  function Fan(b: Base, tenants: seq<string>, name: string, extra: seq<Attr>): seq<Record> {
    if tenants == [] then []
    else
      var n := |tenants| - 1;
      Fan(b, tenants[..n], name, extra) + [BaseRecord(BaseWithTenant(b, tenants[n]), name, extra)]
  }

  /** The records of one emission, given what the shared scope holds at that moment. */
  function Emission(e: Emitter, tenants: seq<string>, name: string, extra: seq<Attr>): seq<Record> {
    match e
    case Plain(base) => [BaseRecord(base, name, extra)]
    case Fanning(base, _) => Fan(base, Targets(tenants), name, extra)
  }

  class Sink {
    var records: seq<Record>

    constructor ()
      ensures records == []
    {
      records := [];
    }

    /** Sends a point through an emitter: once, or once per tenant in its scope now. */
    method Emit(e: Emitter, name: string, extra: seq<Attr>)
      modifies this
      ensures e.Plain? ==> forall tenants :: records == old(records) + Emission(e, tenants, name, extra)
      ensures e.Fanning? ==> records == old(records) + Emission(e, e.scope.tenants, name, extra)
    {
      if e.Plain? {
        records := records + [BaseRecord(e.base, name, extra)];
        return;
      }
      var tenants := e.scope.tenants;
      if |tenants| == 0 {
        tenants := [DISCOVERY];
      }
      for i := 0 to |tenants|
        invariant records == old(records) + Fan(e.base, tenants[..i], name, extra)
      {
        assert tenants[..i + 1][..i] == tenants[..i];
        records := records + [BaseRecord(BaseWithTenant(e.base, tenants[i]), name, extra)];
      }
      assert tenants[..|tenants|] == tenants;
    }
  }

  // ------------------------------------------------------------ chains of calls

  datatype Step = ForDevice(device: Device) | ForTenant(id: string)

  function Chain(e: Emitter, steps: seq<Step>): Emitter {
    if steps == [] then e
    else
      var before := Chain(e, steps[..|steps| - 1]);
      match steps[|steps| - 1]
      case ForDevice(d) => WithDevice(before, d)
      case ForTenant(id) => WithTenant(before, id)
  }

  /** The tenant a chain has chosen: the last one named, once one that is not blank
      has been named. */
  function Choice(steps: seq<Step>): Option<string> {
    if steps == [] then None
    else
      var before := Choice(steps[..|steps| - 1]);
      match steps[|steps| - 1]
      case ForDevice(_) => before
      case ForTenant(id) => if before.None? && Blank(id) then None else Some(id)
  }

  lemma {:induction false} LastValueConcat(a: seq<Attr>, b: seq<Attr>, key: string)
    ensures LastValue(a + b, key) == if LastValue(b, key).Some? then LastValue(b, key) else LastValue(a, key)
  {
    if b == [] {
      assert a + b == a;
    } else {
      var n := |b| - 1;
      assert (a + b)[..|a + b| - 1] == a + b[..n];
      LastValueConcat(a, b[..n], key);
    }
  }

  lemma {:induction false} NamedKeepsKeys(attrs: seq<Attr>, key: string)
    requires key != ""
    ensures LastValue(Named(attrs), key) == LastValue(attrs, key)
  {
    if attrs != [] {
      var n := |attrs| - 1;
      NamedKeepsKeys(attrs[..n], key);
      if attrs[n].key != "" {
        var before := Named(attrs[..n]);
        assert (before + [attrs[n]])[..|before|] == before;
      }
    }
  }

  ghost predicate NoTenantKey(attrs: seq<Attr>) {
    forall i :: 0 <= i < |attrs| ==> attrs[i].key != TENANT_KEY
  }

  lemma {:induction false} NoKeyNoValue(attrs: seq<Attr>)
    requires NoTenantKey(attrs)
    ensures LastValue(attrs, TENANT_KEY).None?
  {
    if attrs != [] {
      NoKeyNoValue(attrs[..|attrs| - 1]);
    }
  }

  lemma {:induction false} NonEmptyKeepsKeys(attrs: seq<Attr>)
    requires NoTenantKey(attrs)
    ensures NoTenantKey(NonEmpty(attrs))
  {
    if attrs != [] {
      NonEmptyKeepsKeys(attrs[..|attrs| - 1]);
    }
  }

  lemma DeviceHasNoTenantKey(d: Device)
    ensures NoTenantKey(NonEmpty(DeviceAttrs(d)))
  {
    NonEmptyKeepsKeys(DeviceAttrs(d));
  }

  /** What a chain of calls leads to: the same shared scope while no tenant is
      chosen, and a plain emitter stamped with the chosen tenant afterwards. */
  lemma {:induction false} ChainKeepsScopeOrTenant(e: Emitter, steps: seq<Step>)
    requires e.Fanning?
    ensures
      var c := Chain(e, steps);
      if Choice(steps).None? then c.Fanning? && c.scope == e.scope
      else c.Plain? && LastValue(c.base.attrs, TENANT_KEY) == Choice(steps)
  {
    if steps != [] {
      var n := |steps| - 1;
      ChainKeepsScopeOrTenant(e, steps[..n]);
      var before := Chain(e, steps[..n]);
      match steps[n] {
        case ForDevice(d) =>
          DeviceHasNoTenantKey(d);
          NoKeyNoValue(NonEmpty(DeviceAttrs(d)));
          LastValueConcat(before.base.attrs, NonEmpty(DeviceAttrs(d)), TENANT_KEY);
        case ForTenant(id) =>
          assert (before.base.attrs + [Attr(TENANT_KEY, id)])[..|before.base.attrs|] == before.base.attrs;
      }
    }
  }

  lemma RecordTenant(b: Base, name: string, extra: seq<Attr>)
    requires NoTenantKey(extra)
    ensures TenantOf(BaseRecord(b, name, extra)) == LastValue(b.attrs, TENANT_KEY)
  {
    NamedKeepsKeys(b.attrs + extra, TENANT_KEY);
    LastValueConcat(b.attrs, extra, TENANT_KEY);
    NoKeyNoValue(extra);
  }

  lemma {:induction false} FanIsOnePerTenant(b: Base, tenants: seq<string>, name: string, extra: seq<Attr>)
    requires NoTenantKey(extra)
    ensures |Fan(b, tenants, name, extra)| == |tenants|
    ensures forall i :: 0 <= i < |tenants| ==> TenantOf(Fan(b, tenants, name, extra)[i]) == Some(tenants[i])
  {
    if tenants != [] {
      var n := |tenants| - 1;
      FanIsOnePerTenant(b, tenants[..n], name, extra);
      RecordTenant(BaseWithTenant(b, tenants[n]), name, extra);
    }
  }

  /** For every chain of calls: without a chosen tenant, one record for each tenant
      in the scope, in order, or one for discovery when it is empty; with one,
      exactly one record for it, whatever the scope holds. */
  lemma OneRecordPerTenant(e: Emitter, steps: seq<Step>, tenants: seq<string>, name: string, extra: seq<Attr>)
    requires e.Fanning? && NoTenantKey(extra)
    ensures
      var records := Emission(Chain(e, steps), tenants, name, extra);
      var expected := if Choice(steps).Some? then [Choice(steps).value] else Targets(tenants);
      && |records| == |expected|
      && forall i :: 0 <= i < |records| ==> TenantOf(records[i]) == Some(expected[i])
  {
    ChainKeepsScopeOrTenant(e, steps);
    var c := Chain(e, steps);
    if c.Plain? {
      RecordTenant(c.base, name, extra);
    } else {
      FanIsOnePerTenant(c.base, Targets(tenants), name, extra);
    }
  }

  /** Replacing the tenants later is seen by every descendant without a chosen
      tenant and by none with one. */
  method ReplaceTenants(root: Emitter, steps: seq<Step>, list: seq<string>, name: string, extra: seq<Attr>, sink: Sink)
    requires root.Fanning? && NoTenantKey(extra)
    modifies root.scope, sink
    ensures
      var expected := if Choice(steps).Some? then [Choice(steps).value] else Targets(Clean(list));
      && |sink.records| == |old(sink.records)| + |expected|
      && forall i :: 0 <= i < |expected| ==> TenantOf(sink.records[|old(sink.records)| + i]) == Some(expected[i])
  {
    var descendant := Chain(root, steps);
    ChainKeepsScopeOrTenant(root, steps);
    root.scope.SetTenants(list);
    OneRecordPerTenant(root, steps, root.scope.tenants, name, extra);
    sink.Emit(descendant, name, extra);
  }

  // ------------------------------------------------------------ what a record holds

  /** The attributes a chain stamps, in order: of each device the fields that are not
      empty, and each tenant chosen. */
  function Stamps(steps: seq<Step>): seq<Attr> {
    if steps == [] then []
    else
      var before := steps[..|steps| - 1];
      match steps[|steps| - 1]
      case ForDevice(d) => Stamps(before) + Filled("device.id", d.id) + Filled("device.name", d.name)
                           + Filled("device.mac", d.mac) + Filled("device.model", d.model) + Filled("site.name", d.site)
      case ForTenant(id) =>
        if Choice(before).None? && TrimSpace(id) == "" then Stamps(before) else Stamps(before) + [Attr("tenant.id", id)]
  }

  function Filled(key: string, value: string): seq<Attr> {
    if value == "" then [] else [Attr(key, value)]
  }

  lemma DeviceStamps(d: Device)
    ensures NonEmpty(DeviceAttrs(d)) == Filled("device.id", d.id) + Filled("device.name", d.name)
            + Filled("device.mac", d.mac) + Filled("device.model", d.model) + Filled("site.name", d.site)
  {
    var all := DeviceAttrs(d);
    assert all[..1][..0] == [] && all[..2][..1] == all[..1] && all[..3][..2] == all[..2] && all[..4][..3] == all[..3]
        && all[..4] == all[..|all| - 1];
    assert NonEmpty(all[..1]) == Filled("device.id", d.id);
    assert NonEmpty(all[..2]) == NonEmpty(all[..1]) + Filled("device.name", d.name);
    assert NonEmpty(all[..3]) == NonEmpty(all[..2]) + Filled("device.mac", d.mac);
    assert NonEmpty(all[..4]) == NonEmpty(all[..3]) + Filled("device.model", d.model);
  }

  lemma {:induction false} ChainStamps(e: Emitter, steps: seq<Step>)
    requires e.Fanning?
    ensures Chain(e, steps).base.attrs == e.base.attrs + Stamps(steps)
    ensures Chain(e, steps).Plain? <==> Choice(steps).Some?
  {
    if steps != [] {
      var n := |steps| - 1;
      ChainStamps(e, steps[..n]);
      var before := Stamps(steps[..n]);
      match steps[n] {
        case ForDevice(d) =>
          DeviceStamps(d);
          FiveMore(before, d);
          Associate(e.base.attrs, before, NonEmpty(DeviceAttrs(d)));
        case ForTenant(id) =>
          Associate(e.base.attrs, before, [Attr("tenant.id", id)]);
      }
    }
  }

  lemma FiveMore(before: seq<Attr>, d: Device)
    ensures before + Filled("device.id", d.id) + Filled("device.name", d.name)
            + Filled("device.mac", d.mac) + Filled("device.model", d.model) + Filled("site.name", d.site)
         == before + (Filled("device.id", d.id) + Filled("device.name", d.name)
            + Filled("device.mac", d.mac) + Filled("device.model", d.model) + Filled("site.name", d.site))
  {
  }

  lemma {:induction false} NamedExact(attrs: seq<Attr>)
    ensures forall a :: a in Named(attrs) <==> a in attrs && a.key != ""
  {
    if attrs != [] {
      var n := |attrs| - 1;
      NamedExact(attrs[..n]);
      assert attrs == attrs[..n] + [attrs[n]];
    }
  }

  /** Every record of an emission carries its name and, of the emitter it began with, of
      each device and tenant of the chain and of the call, exactly the attributes that
      have a key, and a fanned one its tenant besides. */
  lemma RecordsCarry(e: Emitter, steps: seq<Step>, tenants: seq<string>, name: string, extra: seq<Attr>, i: nat)
    requires e.Fanning? && i < |Emission(Chain(e, steps), tenants, name, extra)|
    ensures
      var r := Emission(Chain(e, steps), tenants, name, extra)[i];
      && r.name == name
      && (Choice(steps).None? ==> i < |Targets(tenants)|)
      && forall a :: a in r.attrs <==>
           && a.key != ""
           && (|| a in e.base.attrs || a in Stamps(steps) || a in extra
               || (Choice(steps).None? && a == Attr("tenant.id", Targets(tenants)[i])))
  {
    var c := Chain(e, steps);
    ChainStamps(e, steps);
    if c.Plain? {
      NamedExact(c.base.attrs + extra);
    } else {
      FanRecord(c.base, Targets(tenants), name, extra, i);
      NamedExact(BaseWithTenant(c.base, Targets(tenants)[i]).attrs + extra);
    }
  }

  lemma {:induction false} FanRecord(b: Base, tenants: seq<string>, name: string, extra: seq<Attr>, i: nat)
    requires i < |Fan(b, tenants, name, extra)|
    ensures |Fan(b, tenants, name, extra)| == |tenants|
    ensures Fan(b, tenants, name, extra)[i] == BaseRecord(BaseWithTenant(b, tenants[i]), name, extra)
  {
    var n := |tenants| - 1;
    var before := Fan(b, tenants[..n], name, extra);
    if i < |before| {
      FanRecord(b, tenants[..n], name, extra, i);
    } else if n > 0 {
      FanLength(b, tenants[..n], name, extra);
    }
  }

  lemma {:induction false} FanLength(b: Base, tenants: seq<string>, name: string, extra: seq<Attr>)
    ensures |Fan(b, tenants, name, extra)| == |tenants|
  {
    if tenants != [] {
      FanLength(b, tenants[..|tenants| - 1], name, extra);
    }
  }
}
