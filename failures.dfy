/**
 * The exceptions the uploader can end in, one constructor per Java exception
 * (and per place that throws it).
 */
module Failures {

  datatype Error =
    /** `IllegalArgumentException` from the token lookup. */
    | IllegalArgument(message: string)
    /** `InvalidPathException` from `Paths.get`. */
    | InvalidPath(input: string, reason: string)
    /** `IOException("File does not exist: " + path)` from the file lookup. */
    | FileNotFound(message: string)
    /** `NullPointerException`, with the message `Objects.requireNonNull` gives it, if any. */
    | NullPointer(message: string)
    /** `URISyntaxException` from `new URI(url)`. */
    | UriSyntax(input: string)
    /** `UncheckedIOException` from the body's stream supplier: the file could not be opened. */
    | UncheckedIO
    /** `IOException` from the network send itself. */
    | Transport
    /**
     * `IOException` that the blocking `HttpClient.send` throws around a
     * failure whose cause is not itself an `IOException`.
     */
    | SendIO(cause: Error)
    /** `IOException` from the status check, carrying its message. */
    | HttpStatus(message: string)
    /** `RuntimeException("Error while converting JSON")` from the JSON mapping. */
    | JsonMapping
}
