/** The records that flow through the thermocouple cleaning pipeline:
    raw CSV rows, tidy depth observations, ambient observations and the
    two final tables, together with the fatal errors the script can raise. */
module Records {

  /** One field of a CSV row as the reader delivers it: a number, some
      other text (such as the over-limit marker "-OL"), or nothing. */
  datatype Cell = Number(value: real) | Text(text: string) | Missing

  /** One headerless CSV row: date, time, three probe-depth readings and
      the ambient-air reading. The time is kept as seconds since midnight. */
  datatype Row = Row(date: string, time: nat, temp1: Cell, temp2: Cell, temp3: Cell, temp4: Cell)

  /** The depth tag a reading column receives when it is melted:
      temp1 is "T", temp2 is "M", temp3 is "B". */
  datatype Depth = Top | Middle | Bottom

  /** Side and location decoded from a file name. */
  datatype FileKey = FileKey(side: string, location: string)

  /** One row of a per-file melted table (columns Side, Location, Depth,
      date, time, Temperature). */
  datatype Obs = Obs(side: string, location: string, depth: Depth, date: string, time: nat, temperature: Cell)

  /** One row of a per-file air table (columns Location, date, time,
      Temperature); it carries no side. */
  datatype AirObs = AirObs(location: string, date: string, time: nat, temperature: Cell)

  /** One row of the combined depth table after the date column is dropped
      and the elapsed time dTime (in seconds) is added. */
  datatype DepthRow = DepthRow(side: string, location: string, depth: Depth, time: nat, temperature: Cell, dTime: int)

  /** One row of the combined air table after the date column is dropped. */
  datatype AirRow = AirRow(location: string, time: nat, temperature: Cell)

  /** The fatal errors of the script: unpacking the split stem into two
      names (a ValueError), reading the second character of the side part
      (an IndexError), concatenating an empty list of tables (a
      ValueError raised by the concatenation), and computing dTime row by
      row on a combined table without rows. */
  datatype Error = StemNotTwoParts | SideIndexOutOfRange | NoTablesToConcatenate | ElapsedOfEmptyTable

  datatype Option<T> = None | Some(value: T)

  datatype Result<T> = Ok(value: T) | Err(error: Error)
}
