# Ingestion pipeline of rag-autos, modelled in Dafny

This project models the ingestion side of a retrieval-augmented question
answering service for investigative case files. A background job drains a
PostgreSQL work queue (`fila_rag`): each pending item either carries
structured text, points at a binary attachment in object storage (PDF,
image, audio or video), or asks for a deletion. The job turns each item into
text and adds it to, or deletes it from, a Weaviate vector store, then marks
the item processed. Beside the job sits the sentence-block chunker of
`ContentProcessor`.

Three parts are modelled, one module each, plus small helper modules:

- `ContentProcessor` (`content_processor.dfy`) — `dividir_por_frases`, the
  greedy sentence packer, as a method with the source's loop, proved
  against a left fold `Pack` over the sentences. Lemmas about that fold
  state what the packing guarantees: order kept, blocks within the word
  bound unless a single sentence is oversized, greedy maximality, and the
  leading empty block `""` that appears when the first sentence alone
  exceeds the bound.
- `BinaryProcessor` (`binary_processor.dfy`) — `FormatSupport.verificar_formato`
  and the three `suporta_formatos` as pure functions over
  case-sensitive suffixes, proved disjoint. The four `processar_*`
  shells are methods over a `FileSystem` object (`files.dfy`), with the
  libraries' answers as inputs. Each of them removes its input on every
  exit path. The video shell derives `<path>.wav` and returns the audio
  shell's transcript whether or not extraction worked. Its own cleanup of
  the waveform is dead code: the audio shell has already deleted the file,
  and a failed extraction can leave a partial waveform behind.
- `FilaProcessor` (`fila_processor.dfy`) — the class `FilaProcessor`, with the
  queue table (`map<int, Item>`), the vector store (`seq<Record>`) and the
  file system. `ProcessarFila` is proved to equal the spec function `Drain`,
  which applies `ItemEffect` to each fetched row in order. Lemmas about
  `Drain` state which rows change (`DrainStatus`, `DrainHandlesOneBatch`),
  which records appear or disappear (`DrainStoreProvenance`), and which
  files appear or disappear (`DrainFiles`).

`Text` (`text.dfy`) holds the Python string behaviour the code relies on:
whitespace as `str.isspace` defines it, `len(s.split())`, `" ".join`,
`s.strip() == ""`, `s.endswith` and `str(n)`. `Wrappers` (`wrappers.dfy`)
holds `Option`.

Behaviour modelled as the code has it, where it differs from the intended
design of the pipeline:

- The drain never calls the chunker. A structured item is stored as one
  record holding its whole `conteudo`. A binary item is stored as one record
  with `referencia = ""`, even when extraction produced `""`.
- Every handler swallows its own exceptions. An item is therefore marked
  processed even when indexing failed. It stays pending only when the status
  UPDATE/commit itself fails.
- The audio shell returns a fixed transcript and reads nothing.
- A delete asks the store to remove the object whose id is `str(id_fila)`.
  Objects added by `add_texts` get keys the store chooses, so a delete does
  not remove them unless the store happened to key one `str(id_fila)`
  (`DeleteRemovesOnlyOwnKey`).
- A binary is downloaded to `/tmp/{hash}` and classified by that path, which
  classifies exactly as the hash does (`TempPathClassifiesAsHash`). A hash
  with no supported extension is therefore unsupported. Its downloaded file
  is never removed and nothing is indexed for it (`BinaryInsert`).

## Model

| member | source | states |
|---|---|---|
| `ContentProcessor.DividirPorFrases` | contentProcessor.py:15-46 | the loop returns exactly the greedy packing `Blocks(frases, maxTokens)`, with `maxTokens` 500 when omitted; `token_count` is at every step the word count of the current block |
| `ContentProcessor.FlushPreserves` | contentProcessor.py:32-36 | a flush (current words + sentence words > bound) closes the current group and keeps every packing invariant |
| `ContentProcessor.ExtendPreserves` | contentProcessor.py:38-40 | adding a sentence without a flush keeps every packing invariant and the current group within the bound |
| `ContentProcessor.PackInvariant` | contentProcessor.py:29-40 | after any prefix of the sentences, the closed groups and the current one partition the prefix, only group 0 can be empty, oversized groups are single sentences, and each flush was forced |
| `ContentProcessor.BlockCount` | contentProcessor.py:26-46 | no blocks exactly for no sentences; for a non-empty input the last group is non-empty; at most one block more than sentences |
| `ContentProcessor.GroupsPartitionSentences` | contentProcessor.py:30-44 | flattening the groups in order gives back the input sentences; block i is group i joined with single spaces |
| `ContentProcessor.BlockWords` | contentProcessor.py:31-44 | the words of block i (split on whitespace) are exactly the summed words of its sentences |
| `ContentProcessor.MultiSentenceBlockWithinBound` | contentProcessor.py:31-40 | a block of two or more sentences has at most `maxTokens` words |
| `ContentProcessor.OversizedBlockIsOneSentence` | contentProcessor.py:32-40 | a block over the bound is one sentence that alone is over it, or the leading `""` when the bound is negative |
| `ContentProcessor.GreedyPacking` | contentProcessor.py:32-36 | a block's words plus the first sentence of the next block exceed the bound |
| `ContentProcessor.OnlyFirstBlockEmpty` | contentProcessor.py:29-35 | groups after the first are non-empty; group 0 is empty (block 0 is `""`) exactly when the first sentence alone exceeds the bound |
| `Text.JoinWordCount` | contentProcessor.py:31-34 | `len(" ".join(parts).split())` equals the sum of `len(p.split())` over the parts |
| `Text.IntToStringInjective` | filaProcessor.py:161 | `str(a) == str(b)` only when `a == b`, so a delete's id names one item |
| `BinaryProcessor.EndsWithAny` | binaryProcessor.py:62 | `any(path.endswith(ext) for ext in exts)` holds exactly when some listed extension is a suffix |
| `BinaryProcessor.SuportaImagem` | binaryProcessor.py:59-62 | true exactly for a case-sensitive `.png`, `.jpg` or `.jpeg` suffix |
| `BinaryProcessor.SuportaAudio` | binaryProcessor.py:84-87 | true exactly for a case-sensitive `.mp3`, `.ogg` or `.wav` suffix |
| `BinaryProcessor.SuportaVideo` | binaryProcessor.py:121-124 | true exactly for a case-sensitive `.mp4`, `.webm` or `.avi` suffix |
| `BinaryProcessor.FamiliesDisjoint` | binaryProcessor.py:129-136 | no path ends with suffixes of two families, so the priority order never decides the answer |
| `BinaryProcessor.VerificarFormato` | binaryProcessor.py:126-138 | "pdf" exactly for `.pdf`, "imagem"/"audio"/"video" exactly when that family's test holds, `None` exactly when none does |
| `BinaryProcessor.UnsupportedByLastChar` | binaryProcessor.py:129-138 | a path whose last character ends no supported extension is unsupported |
| `BinaryProcessor.UpperCaseUnsupported` | binaryProcessor.py:129-138 | any path ending in `.PDF`, `.JPG`, `.WAV` or `.AVI` is unsupported: matching is case-sensitive |
| `BinaryProcessor.PageTexts` | binaryProcessor.py:16-19 | the concatenated text layer exists exactly when every page reads |
| `BinaryProcessor.PageTextsSplit` | binaryProcessor.py:17-19 | the document's text is the first k pages' text followed by the rest's: pages in order |
| `BinaryProcessor.OcrOnlyWhenBlank` | binaryProcessor.py:21-24 | a non-blank text layer is returned as is; the recognition result replaces it only when it is blank |
| `BinaryProcessor.ProcessarPdf` | binaryProcessor.py:13-31 | returns `""` on an unreadable document or page, else the page texts concatenated in order, or the OCR fallback when that is blank; the input path no longer exists |
| `BinaryProcessor.ProcessarImagem` | binaryProcessor.py:46-57 | returns the recognised text or `""` when recognition raises; the input path no longer exists |
| `BinaryProcessor.ProcessarAudio` | binaryProcessor.py:73-82 | returns the fixed transcript; the input path no longer exists |
| `BinaryProcessor.AudioPathIsAudio` | binaryProcessor.py:113 | the derived path `<video>.wav` differs from the video path and classifies as audio |
| `BinaryProcessor.ExtrairAudio` | binaryProcessor.py:111-119 | returns `<video>.wav` on success and `""` on failure; the waveform exists after success or after a failure that left a partial file |
| `BinaryProcessor.ProcessarVideo` | binaryProcessor.py:93-109 | returns the audio shell's transcript whatever extraction did; the files afterwards are `VideoFilesAfter` of the files before |
| `BinaryProcessor.VideoCleanup` | binaryProcessor.py:94-119 | after the video shell the input is gone; the waveform remains exactly when extraction failed and a partial or earlier file was there; no other file changes |
| `BinaryProcessor.ExtractionRemovesInput` | binaryProcessor.py:28-31 | every extractor removes its input path; no file appears except possibly the derived waveform |
| `Files.FileSystem.Exists` | binaryProcessor.py:29 | `os.path.exists`: true exactly for an existing path, never for `""` |
| `Files.FileSystem.Remove` | binaryProcessor.py:30 | `os.remove` of an existing path removes that path and nothing else |
| `Files.FileSystem.Write` | binaryProcessor.py:115 | writing a file makes its path exist and changes nothing else |
| `FilaProcessor.TempPathClassifiesAsHash` | filaProcessor.py:133-137 | the download path `/tmp/{hash}` gets the same format as the hash itself: no supported extension can reach into `/tmp/` |
| `FilaProcessor.RemoveKey` | filaProcessor.py:161 | the store's delete keeps exactly the records whose key differs from the id |
| `FilaProcessor.FilaProcessor.ProcessarFila` | filaProcessor.py:72-113 | a failed fetch changes nothing; otherwise the table, store and files become `Drain` of the old state over the fetched rows in order |
| `FilaProcessor.FilaProcessor.ProcessarEstruturado` | filaProcessor.py:115-124 | adds one record with the whole content and `{id_fila, referencia}` when the add succeeds, nothing otherwise; the table is unchanged |
| `FilaProcessor.FilaProcessor.ProcessarBinario` | filaProcessor.py:126-156 | store and files become `BinaryEffect`: decode, download to `/tmp/{hash}`, classify, extract, add one record |
| `FilaProcessor.FilaProcessor.RemoverDoRag` | filaProcessor.py:158-164 | deletes the records keyed `str(id_fila)` when the delete succeeds; the table is unchanged |
| `FilaProcessor.ItemStatus` | filaProcessor.py:102-111 | whatever its handler did, an item is marked processed (with the update's timestamp) exactly when the update succeeds; only its own row changes, and only its timestamp |
| `FilaProcessor.StructuredInsertStoresWholeContent` | filaProcessor.py:118-121 | a structured insert appends exactly one record holding the whole `conteudo`, unchunked, and touches no file |
| `FilaProcessor.BinaryInsert` | filaProcessor.py:133-153 | by the hash's format: a supported download is added as one record with `referencia = ""`, the files become those its extractor leaves, its temp file is gone and only a video's waveform can appear; an unsupported one adds nothing and its temp file stays |
| `FilaProcessor.BinaryFailureChangesNothing` | filaProcessor.py:126-134 | a payload that does not decode or a failed download changes no record and no file |
| `FilaProcessor.DeleteRemovesOnlyOwnKey` | filaProcessor.py:158-164 | a delete removes exactly the records keyed `str(id_fila)`; records keyed by other ids, and this item's records under other keys, stay |
| `FilaProcessor.OtherCombinationsTouchNothing` | filaProcessor.py:94-101 | any `acao`/`tipo` pair other than I/E, I/B or E changes no record and no file |
| `FilaProcessor.DownloadFiles` | binaryProcessor.py:28-31 | after a supported download is extracted, the only new file is the partial waveform of a failed video extraction, and the only files gone are the download and a successful extraction's waveform |
| `FilaProcessor.ItemFiles` | filaProcessor.py:126-153 | every file an item adds is an unsupported download or a failed extraction's partial waveform of its binary insert; every file it removes is its supported download or its successful extraction's waveform |
| `FilaProcessor.ItemProvenance` | filaProcessor.py:94-100 | a record an item adds carries its id and comes from its insert; a record it removes is keyed `str(id)` and comes from its delete |
| `FilaProcessor.DrainStatus` | filaProcessor.py:89-111 | each fetched item ends processed exactly when its own update succeeds, whatever happened to earlier items; unfetched rows are unchanged |
| `FilaProcessor.DrainChangesOnlyFetched` | filaProcessor.py:89-107 | a drain changes at most as many rows as it fetched |
| `FilaProcessor.DrainHandlesOneBatch` | filaProcessor.py:77-84 | over a valid answer to the pending query a drain changes at most 10 rows; unfetched pending items stay pending |
| `FilaProcessor.DrainStoreProvenance` | filaProcessor.py:89-100 | every record a drain adds comes from a fetched insert and carries its id; every record it removes is keyed `str(id)` of a fetched delete |
| `FilaProcessor.DrainFiles` | filaProcessor.py:89-98 | every file a drain leaves behind is a fetched binary insert's unsupported download or partial waveform; every file it removes is a fetched binary insert's supported download or successful extraction's waveform |

## Left out

- `FilaProcessor.__init__` (filaProcessor.py:17-70): environment reads and connection set-up for PostgreSQL, MinIO, Weaviate and OpenAI. The constructor only takes an initial table, store and file system.
- The `BackgroundScheduler` that runs a drain every five minutes, and any overlap between drains: timers and concurrency are outside the model.
- Logging everywhere. Also the exception path of `dividir_por_frases`: `logger` is never defined in contentProcessor.py, so that path would raise on its own.
- Loading the spaCy model and sentence detection: the sentence list is the chunker's input.
- The PDF reader, optical character recognition, the media transcoder, the MinIO download, the JSON decoder, OpenAI embeddings and Weaviate: each is an input that says what the call returned or whether it raised.
- `_extrair_texto_com_ocr` runs on a document already closed by the `with` block. Its result depends on the library, so it is an opaque input.
- `AudioProcessor.processar_audio` returns one hard-coded transcript. The model takes that string as an input and does not reproduce its text.
- `datetime.now()`: an opaque integer per item. Only "set or not" matters.
- Whitespace is Python's `str.isspace` set. `split()`, `strip()` and `isspace()` agree on it, so nothing depends on Unicode tables beyond that list.
- A raising `add_texts` adds nothing and a raising `delete` deletes nothing. A store that commits part of a call is not modelled.
- A failed download leaves no file. MinIO writes to a part file first; any such leftover is not modelled.
- A failed status UPDATE is never rolled back, so PostgreSQL may fail every later UPDATE on the same connection. The model lets each item's update succeed or fail on its own, which includes that case but does not force it.
- Pending rows with equal `data_hora` may come back in any order. The fetch is an input constrained only by what the query guarantees (`AnswersPendingQuery`).
- `ragQuery.py` and `consultaRequest.py`: the question-answering endpoint is not part of this model.
