/**
 * Destination column types chosen from one row of SAS's PROC CONTENTS
 * output (`code_row`). The rules are tried in order and the first that
 * applies decides.
 */
module TypeMapper {
  import opened Wrappers
  import opened Strings

  /** The PostgreSQL types a column can be given. */
  datatype PgType = Text | Timestamp | Time | Date | Float8 | Int8

  /** The type's name as it is written in SQL. */
  function TypeName(t: PgType): string
  {
    match t
    case Text => "text"
    case Timestamp => "timestamp"
    case Time => "time"
    case Date => "date"
    case Float8 => "float8"
    case Int8 => "int8"
  }

  /**
   * One row of PROC CONTENTS: the variable's name, its display format
   * (missing when SAS reports none), the format's decimals and width, and
   * the variable type (2 for character, 1 for numeric).
   */
  datatype Column = Column(name: string, format: Option<string>, formatd: int, formatl: int, typeCode: int)

  const CharacterType := 2

  predicate IsDatetimeFormat(f: string)
  {
    ContainsIgnoreCase(f, "datetime")
  }

  predicate IsTimeFormat(f: string)
  {
    f == "TIME8." || ContainsIgnoreCase(f, "time") || f == "TOD"
  }

  predicate IsDateFormat(f: string)
  {
    ContainsIgnoreCase(f, "date") || ContainsIgnoreCase(f, "yymmdd") || ContainsIgnoreCase(f, "mmddyy")
  }

  /** Whether one of the three date/time rules fires for the column's format. */
  predicate HasTemporalFormat(c: Column)
  {
    c.format.Some? && (IsDatetimeFormat(c.format.value) || IsTimeFormat(c.format.value) || IsDateFormat(c.format.value))
  }

  /**
   * `code_row`. Each result is characterised by the column fields that
   * produce it; in particular `text` comes back exactly for character
   * columns, so the trailing `text` fallback is never reached.
   */
  function CodeRow(c: Column): (t: PgType)
    ensures t == Text <==> c.typeCode == CharacterType
    ensures t == Timestamp <==> c.typeCode != CharacterType && c.format.Some? && IsDatetimeFormat(c.format.value)
    ensures t == Time <==>
      c.typeCode != CharacterType && c.format.Some? && !IsDatetimeFormat(c.format.value) && IsTimeFormat(c.format.value)
    ensures t == Date <==>
      c.typeCode != CharacterType && c.format.Some? && !IsDatetimeFormat(c.format.value)
      && !IsTimeFormat(c.format.value) && IsDateFormat(c.format.value)
    ensures t == Int8 <==>
      c.typeCode != CharacterType && !HasTemporalFormat(c) && c.format != Some("BEST") && c.formatd == 0 && c.formatl != 0
    ensures t == Float8 <==>
      c.typeCode != CharacterType && !HasTemporalFormat(c)
      && (c.format == Some("BEST") || c.formatd != 0 || c.formatl == 0)
  {
    if c.typeCode == CharacterType then Text
    else if c.format.Some? && IsDatetimeFormat(c.format.value) then Timestamp
    else if c.format.Some? && IsTimeFormat(c.format.value) then Time
    else if c.format.Some? && IsDateFormat(c.format.value) then Date
    else if c.format == Some("BEST") then Float8
    else if c.formatd != 0 then Float8
    else if c.formatd == 0 && c.formatl != 0 then Int8
    else if c.formatd == 0 && c.formatl == 0 then Float8
    else Text
  }

  /**
   * Every datetime format also satisfies the time rule and the date rule,
   * so the datetime rule must be tried first for `timestamp` to be reachable.
   */
  lemma DatetimeShadowsTimeAndDate(f: string)
    requires IsDatetimeFormat(f)
    ensures IsTimeFormat(f) && IsDateFormat(f)
  {
    assert "datetime"[4..8] == "time" && "datetime"[0..4] == "date";
    ContainsSlice(Lower(f), "datetime", 4, 8);
    ContainsSlice(Lower(f), "datetime", 0, 4);
  }

  /** `TIME8.` is already caught by the case-insensitive "time" search. */
  lemma Time8IsTimeByName()
    ensures ContainsIgnoreCase("TIME8.", "time")
  {
    OccursIgnoreCase("TIME8.", "time", 0);
  }

  /** A numeric column whose format has no date/time word follows the numeric rules. */
  lemma NumericFallback(c: Column)
    requires c.typeCode != CharacterType && !HasTemporalFormat(c)
    ensures CodeRow(c) == if c.format == Some("BEST") || c.formatd != 0 || c.formatl == 0 then Float8 else Int8
  {
  }

  /** A format without the letter i (other than `TOD`) matches neither the datetime nor the time rule. */
  lemma NoTimeWord(f: string)
    requires 'i' !in Lower(f) && f != "TOD"
    ensures !IsDatetimeFormat(f) && !IsTimeFormat(f)
  {
    MissingCharExcludes(Lower(f), "time", 'i');
    MissingCharExcludes(Lower(f), "datetime", 'i');
    assert Lower("TIME8.")[1] == 'i';
  }

  /** A format without the letters a and y matches no date word. */
  lemma NoDateWord(f: string)
    requires 'a' !in Lower(f) && 'y' !in Lower(f)
    ensures !IsDateFormat(f)
  {
    MissingCharExcludes(Lower(f), "date", 'a');
    MissingCharExcludes(Lower(f), "yymmdd", 'y');
    MissingCharExcludes(Lower(f), "mmddyy", 'y');
  }

  lemma ExampleDatetime20(name: string, d: int, l: int)
    ensures CodeRow(Column(name, Some("DATETIME20."), d, l, 1)) == Timestamp
  {
    OccursIgnoreCase("DATETIME20.", "datetime", 0);
  }

  lemma ExampleMmddyy10(c: Column)
    requires c.typeCode == 1 && c.format == Some("MMDDYY10.")
    ensures CodeRow(c) == Date
  {
    MmddyyIsDateOnly(c.format.value);
  }

  /** `MMDDYY10.` names a date and nothing finer. */
  lemma MmddyyIsDateOnly(f: string)
    requires f == "MMDDYY10."
    ensures !IsDatetimeFormat(f) && !IsTimeFormat(f) && IsDateFormat(f)
  {
    var lowered := Lower(f);
    assert lowered == "mmddyy10.";
    NoTimeWord(f);
    assert OccursAt(lowered, "mmddyy", 0);
  }

  /** `BEST12.` is not the exact string `BEST`, so decimals and width decide. */
  lemma ExampleBest12(c: Column)
    requires c.typeCode == 1 && c.format == Some("BEST12.")
    ensures CodeRow(c) == if c.formatd != 0 || c.formatl == 0 then Float8 else Int8
  {
    Best12IsNotTemporal(c.format.value);
    NumericFallback(c);
  }

  /** `BEST12.` names no date or time. */
  lemma Best12IsNotTemporal(f: string)
    requires f == "BEST12."
    ensures !IsDatetimeFormat(f) && !IsTimeFormat(f) && !IsDateFormat(f)
  {
    assert Lower(f) == "best12.";
    NoTimeWord(f);
    NoDateWord(f);
  }
}
