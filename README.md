# ansi_output: a verified model of Molecule's terminal markup renderer

This project models `molecule.ansi_output`, the small presentation helper that
decides whether a terminal should get ANSI colour and turns bracketed markup
such as `[red]Error[/]` into ANSI escape sequences, or strips it to plain text.
Its behaviour is pinned down by the unit tests in
`tests/unit/test_ansi_output.py`. The module file itself,
`molecule/ansi_output.py`, is not part of this model. Where the tests leave a
choice open, the model follows the module's design description and the choice
is listed under "## Left out".

The model is pure. The renderer is an immutable value fixed at construction,
and every operation is a function over strings, maps and values.

- `Coercion`: `to_bool`, a total coercion from a configuration value
  (None, a boolean, a string, an integer or anything else) to a boolean.
- `Capability`: `should_do_markup`, the colour decision. The environment is
  passed in as a `map<string, string>` snapshot instead of being read from
  the process.
- `AnsiCodes`: the six SGR constants (RESET, BOLD, DIM, RED, GREEN, BLUE).
  It also defines `StripAnsi`, the text a terminal shows once it has
  interpreted every SGR sequence. This is used to state that styling never
  changes the visible text.
- `Markup`: the tag tokenizer. A `[name]` opener has a non-empty name of
  letters, digits, `.` and `_`. A `[/]` closer closes the innermost open tag.
  Any other `[` is plain text. Rendering a token stream maps an opener to its
  style code (empty for an unknown style) and a closer of an open tag to the
  reset. A stray closer is dropped, and tags still open at the end of the
  text are closed by one final reset.
- `Renderer`: the `AnsiOutput` value (`markupEnabled`, `markupMap`), the
  default style table and the operations `StripMarkup`, `ProcessMarkup`,
  `FormatScenario` and `FormatLogLevel`.
- `MarkupDocs`: well-formed markup documents, meaning plain text and named
  spans nested to any depth. This module proves the round trips:
  - the tokenizer reads a written document back as its tokens;
  - stripping gives the document's plain content;
  - processing with markup on gives each span's code, its body and a reset.
- `AnsiOutputExamples`: each assertion of the unit tests, derived from the
  general lemmas.
- `SeqFacts`: regrouping of sequence concatenations, used by the proofs.

## Model

| member | source | states |
|---|---|---|
| Coercion.ToBool | tests/unit/test_ansi_output.py:12-37 | None and any other kind of value give false; a boolean is returned unchanged; an integer is true exactly when it is 1, so 0 and 42 are false |
| Coercion.ToBoolString | tests/unit/test_ansi_output.py:12-37 | a string is true exactly when it spells "yes", "on", "1" or "true" with each letter in either case |
| Coercion.ToBoolIgnoresCase | tests/unit/test_ansi_output.py:18-25 | two strings that differ only in the case of their letters coerce alike ("yes"/"YES", "on"/"ON", "true"/"TRUE") |
| Capability.ShouldDoMarkup | tests/unit/test_ansi_output.py:40-63 | a non-empty NO_COLOR forces false; otherwise a true FORCE_COLOR or a true tool flag forces true; without force flags the result is true exactly when TERM is set and names a colour terminal |
| Capability.ShouldDoMarkupReadsColourVarsOnly | tests/unit/test_ansi_output.py:55-61 | two environments that agree on the six colour variables give the same decision |
| Capability.ShouldDoMarkupCases | tests/unit/test_ansi_output.py:40-63 | with the other colour variables cleared: NO_COLOR="1" gives false, FORCE_COLOR="1" gives true, TERM="xterm-256color" gives true, TERM="dumb" gives false |
| AnsiCodes.ConstantsAreStyleCodes | tests/unit/test_ansi_output.py:74-82 | RESET, BOLD, DIM, RED, GREEN, BLUE and BOLD followed by RED are each a sequence of complete SGR codes |
| AnsiCodes.StyleCodeStart | tests/unit/test_ansi_output.py:230-237 | a non-empty style code starts with ESC '[' |
| AnsiCodes.ResetInvisible | tests/unit/test_ansi_output.py:77 | the reset is an SGR code and shows nothing on a terminal |
| Markup.Lex | tests/unit/test_ansi_output.py:85-96 | the first token of a text is a plain character, a `[/]` closer spanning three characters, or an opener spanning exactly `[` + a valid name + `]` |
| Markup.Tokenize | tests/unit/test_ansi_output.py:85-96 | every non-empty text has at least one token and no more tokens than characters; the empty text has none |
| Markup.WriteTokenize | tests/unit/test_ansi_output.py:85-96 | writing the tokens of any text back gives exactly that text: the tokenizer drops and adds nothing |
| Markup.LexStartsTag | tests/unit/test_ansi_output.py:85-96 | the first token is a tag exactly when the text starts with `[/]` or with `[`, a valid name and `]` |
| Markup.TokenizePlainBracket | tests/unit/test_ansi_output.py:85-96 | a '[' that starts no tag is a plain character token |
| Markup.Lookup | tests/unit/test_ansi_output.py:124-137 | a style name the table does not define gets no code |
| Markup.RenderOpen | tests/unit/test_ansi_output.py:109-137 | an opener renders as its style's code and the rest is rendered one level deeper |
| Markup.RenderClose | tests/unit/test_ansi_output.py:109-137 | a closer inside an open tag renders as the reset and the rest one level up |
| Markup.RenderStrayClose | tests/unit/test_ansi_output.py:109-137 | a closer with no open tag renders as nothing |
| Markup.TokenizeTagFree | tests/unit/test_ansi_output.py:89 | text without '[' tokenizes to one plain token per character, whatever follows it |
| Markup.TextOfTokenizeIsSubsequence | tests/unit/test_ansi_output.py:85-96 | the plain text of a string's tokens is obtained from the string by deleting characters: nothing is added and order is kept |
| Markup.RenderTokensVisible | tests/unit/test_ansi_output.py:109-137 | when every code in the table is a style code, rendered tokens show on a terminal exactly their plain text |
| Markup.RenderChars | tests/unit/test_ansi_output.py:89 | plain characters render as themselves |
| Renderer.DefaultMarkupMap | tests/unit/test_ansi_output.py:205-227 | the default table defines exactly the 13 required style names, each with its default code |
| Renderer.DefaultMarkupMapValid | tests/unit/test_ansi_output.py:230-237 | every code of the default table is a sequence of SGR codes |
| Renderer.DefaultMarkupMapValues | tests/unit/test_ansi_output.py:230-237 | every value of the default table is empty or starts with ESC '[' |
| Renderer.DefaultFormatterStyles | tests/unit/test_ansi_output.py:140-192 | the scenario style is green, INFO is blue, WARNING is red and ERROR is bold |
| Renderer.DefaultLookup | tests/unit/test_ansi_output.py:124-137 | looking a style up in the default table gives its default code, and no code for a style the table lacks |
| Renderer.LeftJustify | tests/unit/test_ansi_output.py:195-202 | the result is the text followed by spaces up to the width, never truncated |
| Renderer.LevelStyle | tests/unit/test_ansi_output.py:171-192 | levels of 40 and above take the error style, 30 to 39 the warning style, 20 to 29 the info style, and lower levels no style |
| Renderer.AnsiOutput.StripMarkup | tests/unit/test_ansi_output.py:85-96 | the result is no longer than the input, and tag-free text comes back unchanged |
| Renderer.AnsiOutput.ProcessMarkup | tests/unit/test_ansi_output.py:99-121 | with markup disabled the result is the stripped text; tag-free text comes back unchanged |
| Renderer.AnsiOutput.FormatScenario | tests/unit/test_ansi_output.py:140-168 | disabled: exactly "[" + name + "]"; enabled: the scenario code, "[" + name + "]" and the reset |
| Renderer.AnsiOutput.FormatLogLevel | tests/unit/test_ansi_output.py:171-202 | the label is at least eight characters; disabled: exactly the name left-justified to eight characters |
| Renderer.NewAnsiOutput | tests/unit/test_ansi_output.py:66-71 | markup is enabled exactly when the environment asks for markup, and the table is the default table |
| Renderer.ProcessMarkupVisibleText | tests/unit/test_ansi_output.py:109-137 | for text without escape characters, what a terminal shows of the processed text is exactly the stripped text |
| Renderer.StripMarkupDeletesOnly | tests/unit/test_ansi_output.py:85-96 | stripping only deletes characters: the result is a subsequence of the input |
| Renderer.StripMarkupRemovesTags | tests/unit/test_ansi_output.py:85-96 | for any text, the text is the written form of its tokens and stripping keeps exactly the plain-character tokens, so only tag text is removed |
| Renderer.PlainCharKept | tests/unit/test_ansi_output.py:85-121 | a character other than '[' is kept in place, stripped or processed |
| Renderer.LoneBracketKept | tests/unit/test_ansi_output.py:85-121 | a '[' that starts no tag, as in "a[b" or "[/x]", is kept, stripped or processed |
| Renderer.StrayCloserDropped | tests/unit/test_ansi_output.py:85-121 | a `[/]` with no open tag is dropped, stripped or processed |
| Renderer.OpenerDropped | tests/unit/test_ansi_output.py:85-96 | stripping drops every `[name]` opener, known or unknown, closed or not |
| Renderer.UnclosedTag | tests/unit/test_ansi_output.py:85-121 | an unclosed tag is closed at the end of the text: stripped, its text remains; processed, its code comes first and the reset last |
| Renderer.WrappedVisibleText | tests/unit/test_ansi_output.py:160-165 | a style code, then text, then the reset shows as the text alone |
| Renderer.FormatScenarioVisibleText | tests/unit/test_ansi_output.py:140-168 | on a terminal the scenario label always reads "[" + name + "]", styled or not |
| Renderer.FormatLogLevelVisibleText | tests/unit/test_ansi_output.py:171-202 | on a terminal the level label always reads as the name left-justified to eight characters |
| Renderer.FormatLogLevelStyled | tests/unit/test_ansi_output.py:171-192 | with markup enabled and a level of INFO or above, the label is wrapped in its level's code and the reset |
| MarkupDocs.Concatenation | tests/unit/test_ansi_output.py:85-96 | writing, content, rendering and well-formedness of two documents one after the other are those of the parts joined |
| MarkupDocs.TokenizeSerialize | tests/unit/test_ansi_output.py:85-96 | a written well-formed document reads back as its tokens, whatever text follows it |
| MarkupDocs.TextOfTokensOf | tests/unit/test_ansi_output.py:85-96 | the plain text of a document's tokens is its content |
| MarkupDocs.RenderTokensOf | tests/unit/test_ansi_output.py:240-254 | rendering a document's tokens closes every span it opens, so what follows renders unaffected |
| MarkupDocs.TokenizeRoundTrip | tests/unit/test_ansi_output.py:85-96 | the tokenizer reads back exactly the tokens a well-formed document was written from |
| MarkupDocs.StripSerialize | tests/unit/test_ansi_output.py:85-96 | stripping a written well-formed document gives its content: every tag pair removed, the text in order |
| MarkupDocs.ProcessSerialize | tests/unit/test_ansi_output.py:99-137 | processing a written document gives each span's code, its body and a reset when enabled, and its content when disabled |
| AnsiOutputExamples.ToBoolTable | tests/unit/test_ansi_output.py:12-37 | every row of the `to_bool` table |
| AnsiOutputExamples.ForceColorEnables | tests/unit/test_ansi_output.py:112-115 | NO_COLOR absent and FORCE_COLOR="1" enable markup |
| AnsiOutputExamples.StripMarkupExamples | tests/unit/test_ansi_output.py:85-96 | the three strip cases give "Error message with bold text", "Plain text message" and "Running test > create" |
| AnsiOutputExamples.ProcessMarkupDisabledExample | tests/unit/test_ansi_output.py:99-106 | with NO_COLOR="1" the two-span text processes to "Error message with bold text" |
| AnsiOutputExamples.ProcessMarkupEnabledExample | tests/unit/test_ansi_output.py:109-121 | with FORCE_COLOR="1", "[red]Error[/] message" becomes RED, "Error", RESET, " message" |
| AnsiOutputExamples.ProcessMarkupUnknownTagExample | tests/unit/test_ansi_output.py:124-137 | the unknown tag adds no code but its closer still resets; the known tag adds RED; "Text" and "known tag" are kept |
| AnsiOutputExamples.MalformedMarkupExamples | tests/unit/test_ansi_output.py:109-121 | with FORCE_COLOR="1": "[red]abc" strips to "abc" and processes to RED, "abc", RESET; "[/]b" processes to "b"; "[b" stays "[b" |
| AnsiOutputExamples.ComplexMarkupExample | tests/unit/test_ansi_output.py:240-254 | the nested text becomes DIM, "Running ", GREEN, "test", RESET, " > ", GREEN, "create", RESET, RESET |
| AnsiOutputExamples.FormatScenarioExamples | tests/unit/test_ansi_output.py:140-168 | disabled: "[test_scenario]"; enabled: GREEN + "[test_scenario]" + RESET |
| AnsiOutputExamples.FormatLogLevelExamples | tests/unit/test_ansi_output.py:171-202 | disabled INFO is "INFO    "; enabled INFO, WARNING and ERROR are wrapped in BLUE, RED and BOLD and the reset |
| AnsiOutputExamples.FormatLogLevelDisabledHasNoEscape | tests/unit/test_ansi_output.py:195-202 | with markup disabled the INFO label holds no escape character |

## Left out

- `molecule/ansi_output.py` is not part of this model. The model is written
  against its unit tests and its design description.
- Reading the live process environment, and pytest's `monkeypatch`. The
  environment is a map parameter.
- Python's `logging` module. INFO, WARNING and ERROR are the integers 20, 30
  and 40.
- How a terminal draws colours. `StripAnsi` only says which characters stay
  visible.
- Terminal information other than TERM, such as whether the output stream is
  a terminal, is not consulted. With no force flag and no TERM the decision is
  false, the design's conservative default.
- Capability.ShouldDoMarkup: the tests exercise only NO_COLOR, FORCE_COLOR and
  TERM. The precedence of PY_COLORS, CLICOLOR and ANSIBLE_FORCE_COLOR
  (checked after FORCE_COLOR) follows the design description. So does the
  rule that "dumb" is not a colour terminal. Which other TERM values count as
  colour terminals is the model's own choice: those containing "color" or
  "xterm".
- Coercion.ToBool: lower-casing covers ASCII letters only. No truthy word is
  the lower case of a non-ASCII character.
- Renderer.AnsiOutput.ProcessMarkup: the tests check only that codes are
  present, not where resets go. The model follows the design description:
  - each closer emits the reset and the enclosing style is not restored (the
    flat-reset policy);
  - a stray closer is dropped;
  - tags left open are implicitly closed at the end of the text.
  Closing them takes one final reset however many are open, since one reset
  ends every style; that count is the model's own choice.
  AnsiOutputExamples.ComplexMarkupExample and
  AnsiOutputExamples.MalformedMarkupExamples state the placements exactly.
- Renderer.AnsiOutput.FormatLogLevel: levels below INFO (20) get no style. The
  tests cover only INFO, WARNING and ERROR.
- The default codes of `danger` (bold red), `info` (dim), `warning` (red) and
  `action` (green) are the model's own choice. Neither the tests nor the
  design description give them: the tests check only that the keys exist and
  that each value is empty or an escape sequence. The leading DIM in
  AnsiOutputExamples.ComplexMarkupExample depends on the choice for `info`.
  The codes of `scenario` (green) and the `logging.level.*` styles (blue, red,
  bold) are the ones the tests and the design name.
