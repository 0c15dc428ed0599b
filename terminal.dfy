/** The terminal a client asked for when it opened its session. */
module Terminal {
  /** `PTYRequest`: terminal type, size in characters and size in pixels (0 when unknown). */
  datatype PTYRequest = PTYRequest(termType: string, width: int, height: int, pixelWidth: int, pixelHeight: int)
}
