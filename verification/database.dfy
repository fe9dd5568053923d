/** Row identities and table names shared by every persisted entity.

    Each row carries an integer primary key chosen by the database and a public
    `uuid` text assigned just before insertion: the entity's two-letter prefix,
    an underscore, and the 32 hex digits of a fresh version-4 uuid. The random
    draw is a parameter of the model. */
module Database {

  predicate IsHexDigit(c: char) {
    '0' <= c <= '9' || 'a' <= c <= 'f'
  }

  /** The 32 lower-case hex digits of a version-4 uuid: version nibble `4`,
      variant nibble one of `8`, `9`, `a`, `b`. */
  predicate IsUuid4Digits(h: string) {
    && |h| == 32
    && (forall i :: 0 <= i < |h| ==> IsHexDigit(h[i]))
    && h[12] == '4'
    && h[16] in "89ab"
  }

  /** `str(uuid)`: the canonical 8-4-4-4-12 rendering with four dashes. */
  function UuidText(h: string): (t: string)
    requires |h| == 32
    ensures |t| == 36
    ensures t[8] == '-' && t[13] == '-' && t[18] == '-' && t[23] == '-'
  {
    h[..8] + "-" + h[8..12] + "-" + h[12..16] + "-" + h[16..20] + "-" + h[20..]
  }

  /** `s.replace('-', '')`. */
  function RemoveDashes(s: string): (r: string)
    ensures |r| <= |s|
    ensures forall c :: c in r <==> c in s && c != '-'
  {
    if s == [] then []
    else
      assert s == [s[0]] + s[1..];
      (if s[0] == '-' then [] else [s[0]]) + RemoveDashes(s[1..])
  }

  lemma {:induction false} RemoveDashesAppend(a: string, b: string)
    ensures RemoveDashes(a + b) == RemoveDashes(a) + RemoveDashes(b)
  {
    if a != [] {
      assert (a + b)[1..] == a[1..] + b;
      RemoveDashesAppend(a[1..], b);
    } else {
      assert a + b == b;
    }
  }

  lemma {:induction false} RemoveDashesKeepsDashFree(a: string)
    requires '-' !in a
    ensures RemoveDashes(a) == a
  {
    if a != [] {
      assert a[0] in a;
      assert forall c :: c in a[1..] ==> c in a;
      RemoveDashesKeepsDashFree(a[1..]);
      assert a == [a[0]] + a[1..];
    }
  }

  /** Removing the dashes from `a`, a dash, and `b` joins what is left of both. */
  lemma RemoveDashesAroundDash(a: string, b: string)
    ensures RemoveDashes(a + "-" + b) == RemoveDashes(a) + RemoveDashes(b)
  {
    var dash := "-";
    assert RemoveDashes(dash) == [] by {
      assert dash[1..] == [];
    }
    RemoveDashesAppend(a, dash);
    RemoveDashesAppend(a + dash, b);
  }

  lemma DashFreeSlice(h: string, i: int, j: int)
    requires 0 <= i <= j <= |h| && '-' !in h
    ensures RemoveDashes(h[i..j]) == h[i..j]
  {
    assert forall c :: c in h[i..j] ==> c in h;
    RemoveDashesKeepsDashFree(h[i..j]);
  }

  /** Removing the dashes undoes the canonical rendering. */
  lemma UuidTextRoundTrip(h: string)
    requires |h| == 32 && '-' !in h
    ensures RemoveDashes(UuidText(h)) == h
  {
    var p0, p1, p2, p3, p4 := h[..8], h[8..12], h[12..16], h[16..20], h[20..32];
    DashFreeSlice(h, 0, 8);
    DashFreeSlice(h, 8, 12);
    DashFreeSlice(h, 12, 16);
    DashFreeSlice(h, 16, 20);
    DashFreeSlice(h, 20, 32);
    var s1 := p0 + "-" + p1;
    RemoveDashesAroundDash(p0, p1);
    assert RemoveDashes(s1) == h[..12];
    var s2 := s1 + "-" + p2;
    RemoveDashesAroundDash(s1, p2);
    assert RemoveDashes(s2) == h[..16];
    var s3 := s2 + "-" + p3;
    RemoveDashesAroundDash(s2, p3);
    assert RemoveDashes(s3) == h[..20];
    var s4 := s3 + "-" + p4;
    RemoveDashesAroundDash(s3, p4);
    assert RemoveDashes(s4) == h[..20] + h[20..32];
    assert h[..20] + h[20..32] == h;
    assert h[20..] == p4;
    assert s4 == UuidText(h);
  }

  /** `BaseModel.generate_uuid`: the prefix, an underscore, and the uuid's
      canonical text with every dash removed, which is exactly its 32 digits. */
  function GenerateUuid(prefix: string, h: string): (u: string)
    requires IsUuid4Digits(h)
    ensures u == prefix + "_" + h
    ensures |u| == |prefix| + 33
    ensures u[..|prefix| + 1] == prefix + "_"
    ensures forall i :: |prefix| < i < |u| ==> IsHexDigit(u[i]) && u[i] != '-'
  {
    assert '-' !in h by {
      forall c | c in h ensures c != '-' {
        var i :| 0 <= i < |h| && h[i] == c;
        assert IsHexDigit(h[i]);
      }
    }
    UuidTextRoundTrip(h);
    prefix + "_" + RemoveDashes(UuidText(h))
  }

  /** The persisted entity kinds and their `__id_prefix__`. */
  datatype EntityKind = CompanyKind | ApplicationKind | CheckKind | ConnectorKind {
    function IdPrefix(): string {
      match this
      case CompanyKind => "co"
      case ApplicationKind => "ap"
      case CheckKind => "ch"
      case ConnectorKind => "cn"
    }
  }

  /** `receive_before_insert`: the uuid every new row of `kind` is given. */
  function UuidForInsert(kind: EntityKind, h: string): (u: string)
    requires IsUuid4Digits(h)
    ensures |u| == 35
    ensures u[..3] == kind.IdPrefix() + "_"
  {
    GenerateUuid(kind.IdPrefix(), h)
  }

  /** Rows of different kinds never share a uuid, whatever the random draws. */
  lemma DistinctKindsNeverCollide(k1: EntityKind, k2: EntityKind, h1: string, h2: string)
    requires IsUuid4Digits(h1) && IsUuid4Digits(h2)
    requires k1 != k2
    ensures UuidForInsert(k1, h1) != UuidForInsert(k2, h2)
  {
    var u1, u2 := UuidForInsert(k1, h1), UuidForInsert(k2, h2);
    assert u1[..3] == k1.IdPrefix() + "_";
    assert u2[..3] == k2.IdPrefix() + "_";
    assert k1.IdPrefix() + "_" != k2.IdPrefix() + "_" by {
      assert (k1.IdPrefix() + "_")[..2] == k1.IdPrefix();
      assert (k2.IdPrefix() + "_")[..2] == k2.IdPrefix();
    }
  }

  /** A table's schema and name. */
  datatype Table = Table(schemaName: string, tableName: string) {

    /** `Table.__str__`. */
    function Display(): string {
      schemaName + "." + tableName
    }

    /** `Table.identifier`: the primary-key column a foreign key points at. */
    function Identifier(): (r: string)
      ensures r == Display() + ".id"
    {
      schemaName + "." + tableName + ".id"
    }
  }

  lemma DotAt(a: string, b: string)
    ensures (a + "." + b)[|a|] == '.'
  {
  }

  lemma BeforeDotAt(c: string, d: string, i: int)
    requires 0 <= i < |c|
    ensures (c + "." + d)[i] == c[i]
  {
  }

  lemma DotNotEarlier(a: string, b: string, c: string, d: string)
    requires '.' !in c
    requires a + "." + b == c + "." + d
    ensures |a| >= |c|
  {
    if |a| < |c| {
      DotAt(a, b);
      BeforeDotAt(c, d, |a|);
    }
  }

  /** Distinct dot-free tables display distinctly, so a display names one table. */
  lemma DisplayInjective(t1: Table, t2: Table)
    requires '.' !in t1.schemaName && '.' !in t1.tableName
    requires '.' !in t2.schemaName && '.' !in t2.tableName
    requires t1.Display() == t2.Display()
    ensures t1 == t2
  {
    var a, c, d := t1.schemaName, t2.schemaName, t1.Display();
    DotNotEarlier(a, t1.tableName, c, t2.tableName);
    DotNotEarlier(c, t2.tableName, a, t1.tableName);
    assert a == d[..|a|] == c;
    assert t1.tableName == d[|a| + 1..] == t2.tableName;
  }

  const CoreSchema: string := "core"
  const AppSchema: string := "compliance"

  const ApplicationTable: Table := Table(CoreSchema, "applications")
  const CompanyTable: Table := Table(CoreSchema, "companies")
  const CheckTable: Table := Table(AppSchema, "checks")
  const ConnectorTable: Table := Table(AppSchema, "connectors")
}
