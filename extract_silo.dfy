/**
 * The Silo data type the extraction tool gives an array when it copies it
 * from a VLSV file: the element kind and the element size in bytes select
 * one of five Silo types, and anything else is refused.
 */
module SiloTypes {
  /** The element kind of a VLSV array (VLSV::datatype of the old reader, datatype::type of the new one). */
  datatype ElementKind = INT | UINT | FLOAT | UNKNOWN

  /** The Silo data types the tool uses (DB_SHORT, DB_INT, DB_LONG, DB_FLOAT, DB_DOUBLE). */
  datatype DbType = DbShort | DbInt | DbLong | DbFloat | DbDouble

  /** What SiloType answers: a Silo type, -1 for no type, or a stop of the program. */
  datatype SiloResult = Db(t: DbType) | MinusOne | Exit

  /** The width of a Silo type's elements in bytes (a 64-bit long). */
  function ByteSize(t: DbType): nat
  {
    match t
    case DbShort => 2
    case DbInt => 4
    case DbLong => 8
    case DbFloat => 4
    case DbDouble => 8
  }

  predicate IsFloating(t: DbType)
  {
    t == DbFloat || t == DbDouble
  }

  /** The signed and unsigned integer cases: 2, 4 and 8 bytes. */
  function IntegerType(size: nat): SiloResult
  {
    if size == 2 then Db(DbShort)
    else if size == 4 then Db(DbInt)
    else if size == 8 then Db(DbLong)
    else MinusOne
  }

  /** The floating-point case: 4 and 8 bytes. */
  function FloatType(size: nat): SiloResult
  {
    if size == 4 then Db(DbFloat)
    else if size == 8 then Db(DbDouble)
    else MinusOne
  }

  /** SiloType for the old reader's element kinds: an unknown kind is reported and answered with -1. */
  function SiloTypeOld(kind: ElementKind, size: nat): (r: SiloResult)
    ensures r != Exit
  {
    match kind
    case INT => IntegerType(size)
    case UINT => IntegerType(size)
    case FLOAT => FloatType(size)
    case UNKNOWN => MinusOne
  }

  /** SiloType for the new reader's element kinds: an unknown kind stops the program. */
  function SiloType(kind: ElementKind, size: nat): (r: SiloResult)
    ensures r == Exit <==> kind == UNKNOWN
  {
    match kind
    case INT => IntegerType(size)
    case UINT => IntegerType(size)
    case FLOAT => FloatType(size)
    case UNKNOWN => Exit
  }

  /**
   * A known kind gets Silo type t exactly when t has the requested width and
   * is floating point exactly when the kind is.
   */
  lemma SiloTypeByWidth(kind: ElementKind, size: nat, t: DbType)
    requires kind != UNKNOWN
    ensures SiloType(kind, size) == Db(t) <==> ByteSize(t) == size && (IsFloating(t) <==> kind == FLOAT)
  {
  }

  /** A known kind is answered with -1 exactly when no Silo type has the requested width and kind. */
  lemma SiloTypeRefuses(kind: ElementKind, size: nat)
    requires kind != UNKNOWN
    ensures SiloType(kind, size) == MinusOne <==> forall t :: !(ByteSize(t) == size && (IsFloating(t) <==> kind == FLOAT))
  {
    if SiloType(kind, size) != MinusOne {
      var t := SiloType(kind, size).t;
      assert ByteSize(t) == size && (IsFloating(t) <==> kind == FLOAT);
    }
  }

  /** The two overloads agree on every known kind; only an unknown kind separates them. */
  lemma SiloTypeOverloadsAgree(kind: ElementKind, size: nat)
    ensures kind != UNKNOWN ==> SiloTypeOld(kind, size) == SiloType(kind, size)
    ensures kind == UNKNOWN ==> SiloTypeOld(kind, size) == MinusOne && SiloType(kind, size) == Exit
  {
  }
}
