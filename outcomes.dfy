/** The ways the tournament engine can stop. Every `raise Exception` of the
    engine becomes a `Fault`, and so do the three crashes it does not raise
    itself: the unbound local name, the failed module import and the
    `IndexError` on an empty league. The console messages printed before
    them are not modelled. */
module Outcomes {

  datatype Option<T> = None | Some(value: T)

  datatype Fault =
    | DefCount(count: nat)          // 'def ' does not occur exactly once in a strategy file
    | Semicolon                     // a ';' anywhere in a strategy file
    | OsImport(line: string)        // a from/import line mentioning ' os'
    | IllegalLine(line: string)     // a line outside the allow-list
    | UnboundName                   // no column-0 def header: the name is never bound
    | DuplicateName(name: string)   // the function name is already a file key of the registry
    | ImportFailed(key: string)  // a file key that does not import as a strategy module
    | InvalidMove                   // a strategy returned something other than c, d, C, D
    | PayoffDomain(x: string, y: string) // payoff called outside its four symbols
    | NoRecords                     // the report reads the first record of an empty league

  datatype Result<T> = Ok(value: T) | Err(fault: Fault)
}
