/** The session settings that change the text of a value. */
module Sessions {
  datatype DateStyle = Iso | Sql | Postgres | German
  datatype DateOrder = Ymd | Dmy | Mdy
  datatype IntervalStyle = PostgresInterval | PostgresVerbose | SqlStandard | Iso8601

  /** The settings of a session; `rest` stands for all others. */
  datatype Settings = Settings(
    dateStyle: DateStyle,
    dateOrder: DateOrder,
    intervalStyle: IntervalStyle,
    extraFloatDigits: int,
    rest: int)

  /** Text written under these settings reads back exactly. */
  predicate Stable(s: Settings) {
    s.dateStyle == Iso && s.intervalStyle == PostgresInterval && s.extraFloatDigits >= 1
  }

  /** The settings a body runs under. The date field order stays what it was. */
  function Pinned(s: Settings): (p: Settings)
    ensures Stable(p)
    ensures Stable(s) ==> p == s
  {
    s.(dateStyle := Iso, intervalStyle := PostgresInterval,
       extraFloatDigits := if s.extraFloatDigits < 1 then 1 else s.extraFloatDigits)
  }
}
