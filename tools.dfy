/**
 * What the build tool hands to code outside this model: the JSON parser, the scanner of
 * JSDoc-style tags, the `<script src>` regular expression, and the two external
 * programs. Each is an arbitrary function here, so every property proved holds whatever
 * they return.
 */
module ExternalTools {
  import opened Wrappers
  import opened JsonValues

  datatype Tools = Tools(
    /** `JSON.parse`; `None` when it throws a SyntaxError. */
    parseJson: string -> Option<Json>,
    /** The `[key, value]` pairs of `@key value` lines in the file's JSDoc comment blocks. */
    jsDocTags: string -> seq<(string, string)>,
    /** The `src` attribute of the first `<script … src="…">` on a line, if the line has one. */
    scriptSrc: string -> Option<string>,
    /** `metascript` on (file content, parameters); `None` when it exits with an error. */
    preprocess: (string, string) -> Option<string>,
    /** `uglifyjs` on (file content, options); `None` when it exits with an error. */
    compile: (string, string) -> Option<string>)
}
