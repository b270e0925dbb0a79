/** The messages of the browser runtime (`website/src/runtime/protocol.ts`). */
module RuntimeProtocol {
  import opened Wrappers

  datatype Mode = Plot | Console | Interactive

  datatype Command =
    | Run(code: string, mode: Mode)
    | ImportFile(path: string, bytes: seq<int>)
    | ExportFile(path: string)
    | RemoveFile(path: string)
    | ListFiles

  /** A successful response without its id and duration. */
  datatype Payload = Payload(
    output: string,
    png: Option<seq<int>>,
    files: Option<seq<string>>,
    file: Option<seq<int>>,
    error: Option<string>)

  datatype Reply =
    | Success(payload: Payload)
    | Failure(message: string, fatal: bool)
}
