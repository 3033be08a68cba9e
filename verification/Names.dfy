/** The contract's names for kinds and cardinalities, written and read. */
module Names {
  import opened Options
  import opened Strings
  import opened Domain

  const KINDS: seq<DataTypeKind> := [
    DataTypeKind.Text, Varchar, Char, SmallInt, Integer, BigInt, Numeric, Real, DoublePrecision,
    Boolean, Date, Time, Timestamp, TimestampTz, Uuid, Json, Jsonb, Bytea]

  const KIND_PREFIX := "DATA_TYPE_KIND_"

  function KindSuffix(kind: DataTypeKind): string {
    match kind
    case Text => "TEXT"
    case Varchar => "VARCHAR"
    case Char => "CHAR"
    case SmallInt => "SMALL_INT"
    case Integer => "INTEGER"
    case BigInt => "BIG_INT"
    case Numeric => "NUMERIC"
    case Real => "REAL"
    case DoublePrecision => "DOUBLE_PRECISION"
    case Boolean => "BOOLEAN"
    case Date => "DATE"
    case Time => "TIME"
    case Timestamp => "TIMESTAMP"
    case TimestampTz => "TIMESTAMPTZ"
    case Uuid => "UUID"
    case Json => "JSON"
    case Jsonb => "JSONB"
    case Bytea => "BYTEA"
  }

  function KindName(kind: DataTypeKind): string {
    KIND_PREFIX + KindSuffix(kind)
  }

  /** The contract's spelling as it is, or the canvas's own in any case. */
  predicate NamesKind(kind: DataTypeKind, wanted: string) {
    KindName(kind) == wanted || Same(KindText(kind), wanted)
  }

  function KindFromName(name: string): Option<DataTypeKind> {
    match First(KINDS, (kind: DataTypeKind) => NamesKind(kind, Trim(name)))
    case None => None
    case Some(i) => Some(KINDS[i])
  }

  function CardinalityName(c: Cardinality): string {
    match c
    case OneToOne => "CARDINALITY_ONE_TO_ONE"
    case OneToMany => "CARDINALITY_ONE_TO_MANY"
    case ManyToMany => "CARDINALITY_MANY_TO_MANY"
  }

  const CARDINALITIES: seq<Cardinality> := [OneToOne, OneToMany, ManyToMany]

  predicate NamesCardinality(c: Cardinality, wanted: string) {
    CardinalityName(c) == wanted || Same(CardinalityText(c), wanted)
  }

  function CardinalityFromName(name: string): Option<Cardinality> {
    match First(CARDINALITIES, (c: Cardinality) => NamesCardinality(c, Trim(name)))
    case None => None
    case Some(i) => Some(CARDINALITIES[i])
  }

  // ----- every name is read back -----

  function Ordinal(kind: DataTypeKind): (i: nat)
    ensures i < |KINDS| && KINDS[i] == kind
  {
    match kind
    case Text => 0
    case Varchar => 1
    case Char => 2
    case SmallInt => 3
    case Integer => 4
    case BigInt => 5
    case Numeric => 6
    case Real => 7
    case DoublePrecision => 8
    case Boolean => 9
    case Date => 10
    case Time => 11
    case Timestamp => 12
    case TimestampTz => 13
    case Uuid => 14
    case Json => 15
    case Jsonb => 16
    case Bytea => 17
  }

  /** Length, first and last letter tell the names apart. */
  function Mark(kind: DataTypeKind): (nat, char, char) {
    match kind
    case Text => (4, 'T', 'T')
    case Varchar => (7, 'V', 'R')
    case Char => (4, 'C', 'R')
    case SmallInt => (9, 'S', 'T')
    case Integer => (7, 'I', 'R')
    case BigInt => (7, 'B', 'T')
    case Numeric => (7, 'N', 'C')
    case Real => (4, 'R', 'L')
    case DoublePrecision => (16, 'D', 'N')
    case Boolean => (7, 'B', 'N')
    case Date => (4, 'D', 'E')
    case Time => (4, 'T', 'E')
    case Timestamp => (9, 'T', 'P')
    case TimestampTz => (11, 'T', 'Z')
    case Uuid => (4, 'U', 'D')
    case Json => (4, 'J', 'N')
    case Jsonb => (5, 'J', 'B')
    case Bytea => (5, 'B', 'A')
  }

  lemma SuffixMark(kind: DataTypeKind)
    ensures var s := KindSuffix(kind); s != "" && Mark(kind) == (|s|, s[0], s[|s| - 1])
  {
  }

  lemma MarksDiffer(a: DataTypeKind, b: DataTypeKind)
    requires Mark(a) == Mark(b)
    ensures a == b
  {
  }

  lemma KindNameInjective(a: DataTypeKind, b: DataTypeKind)
    requires KindName(a) == KindName(b)
    ensures a == b
  {
    hide KindSuffix, Mark;
    assert KindSuffix(a) == KindName(a)[|KIND_PREFIX|..] && KindSuffix(b) == KindName(b)[|KIND_PREFIX|..];
    SuffixMark(a);
    SuffixMark(b);
    MarksDiffer(a, b);
  }

  lemma TextIsShort(kind: DataTypeKind)
    ensures |KindText(kind)| <= 16
  {
  }

  lemma NameIsLong(kind: DataTypeKind)
    ensures |KindName(kind)| >= 19 && Trim(KindName(kind)) == KindName(kind)
  {
    hide Trim, KindSuffix;
    SuffixMark(kind);
    var s := KindSuffix(kind);
    assert |s| >= 4 && !IsSpace(s[|s| - 1]) by {
      MarkIsInk(kind);
    }
    assert KindName(kind)[0] == 'D' && KindName(kind)[|KindName(kind)| - 1] == s[|s| - 1];
    TrimFacts(KindName(kind));
  }

  lemma MarkIsInk(kind: DataTypeKind)
    ensures Mark(kind).0 >= 4 && !IsSpace(Mark(kind).2)
  {
  }

  lemma KindComesBack(kind: DataTypeKind)
    ensures KindFromName(KindName(kind)) == Some(kind)
  {
    hide KindName, KindText, Trim, Ordinal;
    var wanted := KindName(kind);
    NameIsLong(kind);
    var p := (k: DataTypeKind) => NamesKind(k, Trim(wanted));
    forall j | 0 <= j < Ordinal(kind)
      ensures !p(KINDS[j])
    {
      OtherKindNamed(KINDS[j], kind);
      LaterOrdinal(j, kind);
    }
    FirstIs(KINDS, p, Ordinal(kind));
  }

  /** A kind's contract name names no other kind. */
  lemma OtherKindNamed(other: DataTypeKind, kind: DataTypeKind)
    ensures NamesKind(other, KindName(kind)) <==> other == kind
  {
    hide KindName, KindText;
    NameIsLong(kind);
    TextIsShort(other);
    if KindName(other) == KindName(kind) {
      KindNameInjective(other, kind);
    }
    assert |Lower(KindText(other))| != |Lower(KindName(kind))|;
  }

  lemma LaterOrdinal(j: nat, kind: DataTypeKind)
    requires j < Ordinal(kind)
    ensures KINDS[j] != kind
  {
  }

  lemma CardinalityComesBack(c: Cardinality)
    ensures CardinalityFromName(CardinalityName(c)) == Some(c)
  {
    hide Trim, CardinalityName, CardinalityText;
    var wanted := CardinalityName(c);
    CardinalityNameTrimmed(c);
    var p := (k: Cardinality) => NamesCardinality(k, Trim(wanted));
    var i: nat := if c.OneToOne? then 0 else if c.OneToMany? then 1 else 2;
    forall j | 0 <= j < i
      ensures !p(CARDINALITIES[j])
    {
      OtherCardinalityNamed(CARDINALITIES[j], c);
    }
    FirstIs(CARDINALITIES, p, i);
  }

  lemma CardinalityNameTrimmed(c: Cardinality)
    ensures Trim(CardinalityName(c)) == CardinalityName(c)
  {
    hide Trim;
    TrimFacts(CardinalityName(c));
  }

  lemma OtherCardinalityNamed(other: Cardinality, c: Cardinality)
    requires other != c
    ensures !NamesCardinality(other, CardinalityName(c))
  {
    assert |CardinalityName(OneToOne)| == 22 && |CardinalityName(OneToMany)| == 23 && |CardinalityName(ManyToMany)| == 24;
    assert |Lower(CardinalityText(other))| == 3;
  }
}
