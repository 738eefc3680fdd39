# DAG-Generator: extraction of generated code from a chat-completion reply

This project models, in Dafny, the part of `generate_dag_code_from_openai`
that turns a language model's reply into generated Airflow DAG code, and the
data URL that carries the diagram image in the request.

- **Request** (`Request.dfy`). The base64 text of the image is sent as
  `data:image/png;base64,<text>` inside a chat payload. The payload holds a
  system message with the instructions, a user message with the image, and the
  generation parameters. The defaults are seed 42, temperature 0.1, top-p 0.95
  and 800 max tokens.
- **Python string operations** (`PyStr.dfy`): `find`, `rfind`, slicing
  `s[lo:hi]` with Python's clamping of bounds, and `strip()` over CPython's
  whitespace set. Each is proved against a specification: first occurrence,
  last occurrence, and a contiguous middle with whitespace around it and none
  at its ends. `strip()` is shown to be determined by that specification, and
  to be idempotent.
- **JSON values** (`Json.dfy`): the values `json.loads` produces, with their
  Python truthiness and the Python operations the handler applies to them
  (`in`, `len`, `[0]`, `[key]`, `dict.get`). Each operation is modelled with the
  exception Python raises for a value of the wrong type.
- **Response handling** (`Extraction.dfy`):
  - `FirstChoiceContent` checks that `choices` is present and non-empty and
    reads `choices[0]["message"]["content"]`.
  - `ExtractJsonBlock` takes the first `` ```json ``, the last `` ``` ``, slices
    `content[start + 7:end]` and strips it.
  - `ReadDag` reads `dag` and wraps it as `{"dag_code": value}`.
  - `GenerateDagCode` chains these. Every exception becomes an `Error`:
    - `NoValidChoices`, `NoJsonBlock` and `MissingDag` carry the source's
      messages (see `Extraction.Message`).
    - `InvalidJson` stands for `json.loads` failing.
    - `Raised(...)` stands for a KeyError, TypeError or AttributeError on a
      badly shaped reply.
- **Properties** (`ExtractionProperties.dfy`, `ResponseProperties.dfy`):
  - The opening fence begins with the closing fence, so the `end_index == -1`
    check never decides anything.
  - `rfind` can land on the opening fence's own backticks, and then the
    extracted text is empty. Otherwise the last fence lies at or past the end
    of the opening fence.
  - The reply format the system prompt asks for (DAG-Generator.py:121) is
    extracted verbatim.
  - The JSON-block, invalid-JSON and missing-dag errors are each raised by
    exactly the replies the source raises them for. The no-choices error is
    pinned down exactly for every reply body: dicts and everything else. A
    non-dict reply that gets past the `in` test raises TypeError. For a dict
    reply with a badly shaped first choice, the model computes which KeyError,
    TypeError or AttributeError arises, but no lemma states which.
  - Only `choices[0]` is consulted.

The response body and `json.loads` are inputs. The body is a decoded JSON
value. `json.loads` is a function parameter `loads: string -> Option<Value>`,
where `None` means `JSONDecodeError`. The extraction properties therefore hold
for any parser.

Three consequences of the code are worth knowing:
- Only a missing opening fence can cause the JSON-block failure: the closing
  fence is found whenever the opening one is.
- A `dag` that is present but falsy (`null`, `""`, `0`, `[]`, `{}`, `false`)
  is refused as well as a missing one.
- The result is the dict `{"dag_code": value}`; the value's type is not
  checked.

## Model

| member | source | states |
|---|---|---|
| PyStr.FindFrom | DAG-Generator.py:71 | the result is -1 exactly when no occurrence starts at or after `i`; otherwise it is such an occurrence with none between `i` and it |
| PyStr.Find | DAG-Generator.py:71 | `str.find`: -1 exactly when the pattern does not occur, otherwise the lowest index where it occurs |
| PyStr.RFindBelow | DAG-Generator.py:72 | the result is -1 exactly when no occurrence starts below `n`; otherwise it is the highest such occurrence |
| PyStr.RFind | DAG-Generator.py:72 | `str.rfind`: -1 exactly when the pattern does not occur, otherwise the highest index where it occurs |
| PyStr.FindIsFirstOccurrence | DAG-Generator.py:71 | whichever index is the first occurrence is what `find` returns |
| PyStr.RFindIsLastOccurrence | DAG-Generator.py:72 | whichever index is the last occurrence is what `rfind` returns |
| PyStr.ClampIndex | DAG-Generator.py:77 | a Python slice bound normalised into `[0, len]`, unchanged when already in range |
| PyStr.Slice | DAG-Generator.py:77 | `s[lo:hi]` is the plain subsequence for in-range bounds and empty when the bounds cross |
| PyStr.LStrip | DAG-Generator.py:77 | the result is a suffix of the input, everything removed is whitespace, and it does not start with whitespace |
| PyStr.RStrip | DAG-Generator.py:77 | the result is a prefix of the input, everything removed is whitespace, and it does not end with whitespace |
| PyStr.Strip | DAG-Generator.py:77 | `strip()` returns a contiguous middle part with only whitespace around it and none at its ends |
| PyStr.StripUnique | DAG-Generator.py:77 | any string meeting that specification equals `strip()`'s result |
| PyStr.StripFixpoint | DAG-Generator.py:77 | `strip()` leaves a string unchanged exactly when it has no whitespace at either end |
| PyStr.StripIdempotent | DAG-Generator.py:77 | stripping twice equals stripping once |
| Json.FalsyValues | DAG-Generator.py:81 | `not v` holds exactly for `None`, `False`, zero and the empty str, list and dict |
| Json.Get | DAG-Generator.py:79 | `dict.get` gives the key's value when the key is present and None otherwise |
| Json.In | DAG-Generator.py:69 | `in` is a key test on a dict, element membership on a list and a substring test on a str; TypeError on anything else |
| Json.Len | DAG-Generator.py:69 | `len` is defined exactly on str, list and dict, and is 0 exactly for the falsy ones |
| Json.First | DAG-Generator.py:70 | `v[0]` succeeds exactly on a non-empty list or str, giving the first element or the first character; a dict raises KeyError |
| Json.Field | DAG-Generator.py:70 | `v[key]` succeeds exactly on a dict holding the key, giving its value; a dict without it raises KeyError |
| Request.ImageUrl | DAG-Generator.py:54 | the URL is the PNG data-URL prefix followed by the encoded image, unchanged |
| Request.ImageUrlRoundTrip | DAG-Generator.py:54 | removing the prefix from the URL gives back the encoded image |
| Request.ImageUrlInjective | DAG-Generator.py:54 | two images give the same URL exactly when they are equal |
| Request.EncodedDataOf | DAG-Generator.py:54 | the inverse of the data URL: defined exactly on URLs with the prefix, and the prefix followed by its result is the URL |
| Request.BuildPayload | DAG-Generator.py:43-63 | the payload has exactly the keys `messages`, `seed`, `temperature`, `top_p` and `max_tokens`, and two messages, the system one first and the user one second |
| Request.PayloadCarriesImage | DAG-Generator.py:49-57 | the payload's user message gives back the image URL, and its base64 part is the encoded image, unchanged |
| Request.PayloadCarriesPrompt | DAG-Generator.py:45-48 | the payload's system message gives back the system prompt unchanged |
| Request.PayloadCarriesParameters | DAG-Generator.py:59-62 | the seed, temperature, top-p and max tokens reach the payload unchanged |
| Request.DefaultParameters | DAG-Generator.py:27 | called with its defaults, the request carries seed 42, temperature 0.1, top-p 0.95 and 800 max tokens |
| Extraction.Message | DAG-Generator.py:75-85 | exactly the three errors the function raises itself (lines 75, 82 and 85) carry one of its own messages |
| Extraction.ExtractJsonBlock | DAG-Generator.py:71-77 | a successfully extracted text has no whitespace at either end |
| Extraction.ReadDag | DAG-Generator.py:79-83 | succeeds exactly when the parsed dict has a truthy `dag`, giving `{"dag_code": value}` with the value unchanged; raises the missing-dag error for every other dict and AttributeError for non-dicts |
| Extraction.DecodeBlock | DAG-Generator.py:78-83 | a missing block gives the JSON-block error, a block `loads` rejects gives the invalid-JSON error, and otherwise the outcome is `ReadDag` of the parsed value; the no-choices error never arises here |
| Extraction.ExtractDag | DAG-Generator.py:71-83 | the extraction never raises the no-choices error, and a success is a dict with the one key `dag_code` holding a truthy value |
| Extraction.FirstChoiceContent | DAG-Generator.py:69-70 | succeeds exactly on a reply whose non-empty `choices` list starts with a dict whose `message` dict has a str `content`, and gives that text; every failure is the no-choices error or a Python exception |
| Extraction.GenerateDagCode | DAG-Generator.py:69-85 | a well-formed reply is handled as the extraction of its first choice's content; any other reply fails with the error of reading it; a success is a dict with the one key `dag_code` holding a truthy value |
| ExtractionProperties.OpenFenceStartsWithCloseFence | DAG-Generator.py:71-72 | wherever `` ```json `` occurs, `` ``` `` occurs at the same index |
| ExtractionProperties.NoCloseFenceInsideOpenFence | DAG-Generator.py:71-72 | no `` ``` `` starts strictly inside a `` ```json `` |
| ExtractionProperties.CloseCheckRedundant | DAG-Generator.py:71-75 | `end_index == -1` implies `start_index == -1`, so the close-fence check never decides the outcome |
| ExtractionProperties.FenceIndices | DAG-Generator.py:71-72 | for the first `` ```json `` and the last `` ``` ``, `find` and `rfind` return those indices with `start <= end`, and `end` is either `start` or at least `start + 7` |
| ExtractionProperties.ExtractionSpec | DAG-Generator.py:71-77 | the extracted text is the stripped slice strictly between the end of the first opening fence and the last closing fence, or empty when the two fences start at the same index |
| ExtractionProperties.NoOpenFenceFails | DAG-Generator.py:71-75 | extraction fails exactly when the content holds no `` ```json `` |
| ExtractionProperties.ExtractedIsStripped | DAG-Generator.py:77 | the extracted text has no whitespace at its ends, and stripping it again changes nothing |
| ExtractionProperties.FencedBlock | DAG-Generator.py:71-77 | for `pre ```json body ``` post`, with no opening fence in `pre` and no backtick in `post`, the extracted text is `body` stripped |
| ExtractionProperties.OnlyOpenFenceYieldsEmpty | DAG-Generator.py:71-77 | when the opening fence holds the only backticks of the reply, the extracted text is empty |
| ExtractionProperties.FencedReply | DAG-Generator.py:71-77 | a body with no whitespace at its ends, fenced as `` ```json body``` ``, is extracted verbatim |
| ExtractionProperties.DagObjectText | DAG-Generator.py:121 | the requested object text `{"dag": X}` has no whitespace at its ends |
| ExtractionProperties.PromptFormatReply | DAG-Generator.py:71-77 | the reply `` ```json{"dag": X}``` `` that the prompt on line 121 requests yields exactly `{"dag": X}` |
| ResponseProperties.ExtractDagOutcome | DAG-Generator.py:71-83 | the JSON-block error is raised exactly when there is no opening fence; after extraction, the invalid-JSON error is raised exactly when `loads` fails, and otherwise the outcome is decided by `ReadDag` on the parsed value |
| ResponseProperties.DagLookup | DAG-Generator.py:79-83 | the missing-dag error is raised exactly when the parsed dict lacks a truthy `dag`; otherwise the result is exactly `{"dag_code": value}` |
| ResponseProperties.NoValidChoicesIff | DAG-Generator.py:69-85 | for a dict reply, the no-choices error is raised exactly when `choices` is absent or has length 0 |
| ResponseProperties.FirstChoiceIsRead | DAG-Generator.py:69-70 | when `choices[0]["message"]["content"]` is a string, the reply is handled as that string alone |
| ResponseProperties.OnlyFirstChoiceConsulted | DAG-Generator.py:69-70 | two replies whose `choices` lists agree on element 0 are handled alike |
| ResponseProperties.NonObjectReplyFails | DAG-Generator.py:69-70 | a reply body that is not a dict raises the no-choices error exactly when it is a list without the element `"choices"` or a str without the substring `choices`, and TypeError otherwise |
| ResponseProperties.ReplyWithIsRead | DAG-Generator.py:69-70 | the minimal well-formed reply is handled as its content alone |
| ResponseProperties.RequestedFormatYieldsCode | DAG-Generator.py:69-83 | a reply in the requested format whose `dag` parses to a truthy value yields `{"dag_code": value}` |
| ResponseProperties.PrintOneReply | DAG-Generator.py:69-83 | the reply `` ```json{"dag": "print(1)"}``` `` yields `{"dag_code": "print(1)"}` |
| ResponseProperties.NotDagReplyFails | DAG-Generator.py:79-82 | an extracted block `{"not_dag": "x"}` raises the missing-dag error |
| ResponseProperties.OnlyOpenFenceIsInvalidJson | DAG-Generator.py:71-78 | a reply whose only fence is the opening one hands `loads` the empty text, so the failure is the JSON error, not the JSON-block error |

## Left out

- `encode_local_image` (PIL decoding, PNG re-encoding, base64) is a foreign library call; its result is the input `Request.EncodedImage`.
- The HTTP POST, `raise_for_status` and `response.json()` are network I/O; the decoded reply body is an input value.
- `load_dotenv`, `os.getenv` and the request headers that carry the API key are environment I/O and are not modelled.
- `temperature` and `top_p` are carried as `real` values placed in the payload unchanged; binary floating-point rounding of 0.1 and 0.95 is not modelled.
- `json.loads` is the parameter `loads`: neither its parsing, nor its acceptance of `NaN`/`Infinity`, nor its treatment of duplicate keys is modelled; `Json.Value` numbers are reals, so non-finite numbers cannot occur.
- The text of the exceptions that Python or `json` raise themselves (KeyError, TypeError, AttributeError, JSONDecodeError) is not modelled; only their kind is.
- Python strings with lone surrogate code points are not modelled (a Dafny `char` is a Unicode scalar value).
- `save_dag_code_to_file` (file I/O, printing) and the `__main__` entry point (file-existence check, the hard-coded prompt text, printing, the unused `image_path`) are not modelled.
- Which Python exception (KeyError, TypeError, AttributeError) a dict reply with a badly shaped `choices` raises is computed by `Extraction.FirstChoiceContent` but stated by no lemma; the contracts say only that such a reply fails, with the no-choices error or a Python exception.
