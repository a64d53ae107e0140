/** The data the retry loop hands to the result pipeline. */
module Records {

  /** One certificate row. Only the common name and the newline-joined name values are
      read by the pipeline; the other seven columns are unpacked and ignored. */
  datatype Record = Record(commonName: string, nameValue: string)

  /** What `query_results` holds when the retry loop ends: the rows of a successful
      query, or (in quiet mode) the text of a query error that ended the loop. */
  datatype Payload = Rows(rows: seq<Record>) | Message(text: string)
}
