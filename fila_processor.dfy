/**
 * The queue consumer of `filaProcessor.py`: one drain of the `fila_rag`
 * work queue into the vector store.
 *
 * The database, the object store, the vector store and the JSON decoder are
 * external: whether each call succeeds, and what it returns, is an input.
 * What is modelled is what the drain does with those answers: which items
 * it handles and in which order, which vector records it adds or deletes,
 * which temporary files it leaves behind, and which items it marks as
 * processed.
 */
module FilaProcessor {
  import opened Wrappers
  import opened Text
  import opened Files
  import opened BinaryProcessor

  /** A row of `fila_rag`; `dataHora` is the enqueue time, `processedAt` is `data_hora_processamento`. */
  datatype Item = Item(
    referencia: string,
    tipo: string,     // "E" structured, "B" binary
    acao: string,     // "I" insert, "E" delete
    conteudo: string,
    dataHora: int,
    processedAt: Option<int>)

  /** A vector-store object: the key the store gave it, its text and its metadata `{id_fila, referencia}`. */
  datatype Record = Record(key: string, text: string, idFila: int, referencia: string)

  /** The decoded binary payload `{"bucket": ..., "hash": ...}`. */
  datatype BinaryPayload = BinaryPayload(bucket: string, hash: string)

  /** What the external calls made while handling one item answer. */
  datatype ItemOracle = ItemOracle(
    addOk: bool,                     // `vectorstore.add_texts` returns normally
    newKey: string,                  // the key the store gives the added object
    deleteOk: bool,                  // `vectorstore.delete` returns normally
    payload: Option<BinaryPayload>,  // decoding of `conteudo`; None when it raises
    downloadOk: bool,                // `minio_client.fget_object` returns normally
    extraction: Extraction,          // what the extractor libraries yield
    updateOk: bool,                  // the status UPDATE and its commit succeed
    now: int)                        // `datetime.now()` at the UPDATE

  /** Everything a drain can change: the queue table, the vector store and the local files. */
  datatype State = State(fila: map<int, Item>, store: seq<Record>, files: set<string>)

  /** The `LIMIT` of the pending-items query. */
  const BatchSize: nat := 10

  /** Where a binary is downloaded: `/tmp/{hash}`. */
  function TempPath(hash: string): string {
    "/tmp/" + hash
  }

  /**
   * The download is classified by the object's hash alone: `/tmp/` holds no
   * `.`, so every supported extension the download path ends with lies
   * wholly inside the hash. A hash carrying no supported extension gives an
   * unsupported download.
   */
  lemma TempPathClassifiesAsHash(hash: string)
    ensures VerificarFormato(TempPath(hash)) == VerificarFormato(hash)
  {
    EndsWithPastPrefix("/tmp/", hash, ".pdf");
    EndsWithPastPrefix("/tmp/", hash, ".png");
    EndsWithPastPrefix("/tmp/", hash, ".jpg");
    EndsWithPastPrefix("/tmp/", hash, ".jpeg");
    EndsWithPastPrefix("/tmp/", hash, ".mp3");
    EndsWithPastPrefix("/tmp/", hash, ".ogg");
    EndsWithPastPrefix("/tmp/", hash, ".wav");
    EndsWithPastPrefix("/tmp/", hash, ".mp4");
    EndsWithPastPrefix("/tmp/", hash, ".webm");
    EndsWithPastPrefix("/tmp/", hash, ".avi");
  }

  predicate IsPending(fila: map<int, Item>, id: int) {
    id in fila && fila[id].processedAt.None?
  }

  /**
   * `rows` is an answer the database may give to the query for pending
   * items, `ORDER BY data_hora ASC LIMIT 10`: distinct pending items, oldest
   * first, and no pending item left out unless the batch is full of items no
   * newer than it.
   */
  ghost predicate AnswersPendingQuery(fila: map<int, Item>, rows: seq<int>) {
    && |rows| <= BatchSize
    && (forall i :: 0 <= i < |rows| ==> IsPending(fila, rows[i]))
    && (forall i, j :: 0 <= i < j < |rows| ==> rows[i] != rows[j])
    && (forall i, j :: 0 <= i < j < |rows| ==> fila[rows[i]].dataHora <= fila[rows[j]].dataHora)
    && (forall id :: IsPending(fila, id) && id !in rows ==>
          |rows| == BatchSize && forall i :: 0 <= i < |rows| ==> fila[rows[i]].dataHora <= fila[id].dataHora)
  }

  // ---------------------------------------------------------------------
  // The effect of one item
  // ---------------------------------------------------------------------

  /** The vector store's delete by id: every object whose key is `key` goes, the others stay in order. */
  function RemoveKey(store: seq<Record>, key: string): (r: seq<Record>)
    ensures forall rec :: rec in r <==> rec in store && rec.key != key
    ensures |r| <= |store|
    decreases |store|
  {
    if store == [] then []
    else if store[0].key == key then RemoveKey(store[1..], key)
    else [store[0]] + RemoveKey(store[1..], key)
  }

  /** The store after `processar_estruturado`: one record with the whole content, or nothing when adding raises. */
  function StructuredStore(store: seq<Record>, idFila: int, referencia: string, conteudo: string, o: ItemOracle)
    : seq<Record>
  {
    if o.addOk then store + [Record(o.newKey, conteudo, idFila, referencia)] else store
  }

  /** The store after `remover_do_rag`: the delete of the single id `str(id_fila)`, or nothing when it raises. */
  function DeletedStore(store: seq<Record>, idFila: int, o: ItemOracle): seq<Record> {
    if o.deleteOk then RemoveKey(store, IntToString(idFila)) else store
  }

  /** The store and the files after `processar_binario`. */
  function BinaryEffect(store: seq<Record>, files: set<string>, idFila: int, o: ItemOracle)
    : (seq<Record>, set<string>)
  {
    match o.payload
    case None => (store, files)
    case Some(p) =>
      var path := TempPath(p.hash);
      if !o.downloadOk then (store, files)
      else
        var downloaded := files + {path};
        match VerificarFormato(path)
        case None => (store, downloaded)
        case Some(f) =>
          var texto := ExtractedText(f, o.extraction);
          var after := FilesAfterExtraction(downloaded, path, f, o.extraction);
          (if o.addOk then store + [Record(o.newKey, texto, idFila, "")] else store, after)
  }

  /** One pass of the loop body of `processar_fila` for item `id`. */
  function ItemEffect(s: State, id: int, o: ItemOracle): (r: State)
    requires id in s.fila
    ensures r.fila.Keys == s.fila.Keys
  {
    var it := s.fila[id];
    var handled: (seq<Record>, set<string>) :=
      if it.acao == "I" then
        if it.tipo == "E" then (StructuredStore(s.store, id, it.referencia, it.conteudo, o), s.files)
        else if it.tipo == "B" then BinaryEffect(s.store, s.files, id, o)
        else (s.store, s.files)
      else if it.acao == "E" then (DeletedStore(s.store, id, o), s.files)
      else (s.store, s.files);
    var fila := if o.updateOk then s.fila[id := it.(processedAt := Some(o.now))] else s.fila;
    State(fila, handled.0, handled.1)
  }

  /** The items handled one after another, in the order fetched. */
  function Drain(s: State, rows: seq<int>, oracles: seq<ItemOracle>): (r: State)
    requires |oracles| == |rows|
    requires forall i :: 0 <= i < |rows| ==> rows[i] in s.fila
    ensures r.fila.Keys == s.fila.Keys
    decreases |rows|
  {
    if rows == [] then s
    else Drain(ItemEffect(s, rows[0], oracles[0]), rows[1..], oracles[1..])
  }

  // ---------------------------------------------------------------------
  // The processor
  // ---------------------------------------------------------------------

  class FilaProcessor {
    /** The `fila_rag` table, by id. */
    var fila: map<int, Item>
    /** The vector store's objects. */
    var vectorstore: seq<Record>
    /** The local file system the downloads go to. */
    const fs: FileSystem

    ghost predicate Valid()
      reads this, fs
    {
      fs.Valid()
    }

    ghost function Snapshot(): State
      reads this, fs
    {
      State(fila, vectorstore, fs.existing)
    }

    constructor (fila0: map<int, Item>, vectorstore0: seq<Record>, fs: FileSystem)
      requires fs.Valid()
      ensures Valid() && this.fs == fs
      ensures fila == fila0 && vectorstore == vectorstore0
    {
      this.fila := fila0;
      this.vectorstore := vectorstore0;
      this.fs := fs;
    }

    /**
     * `processar_fila`. `fetched` is the database's answer to the pending-items
     * query (`None` when the query raises); `oracles[i]` answers the calls made
     * for the `i`-th fetched item.
     */
    method ProcessarFila(fetched: Option<seq<int>>, oracles: seq<ItemOracle>)
      requires Valid()
      requires fetched.Some? ==> AnswersPendingQuery(fila, fetched.value) && |oracles| == |fetched.value|
      modifies this, fs
      ensures Valid()
      ensures fetched.None? ==> Snapshot() == old(Snapshot())
      ensures fetched.Some? ==> Snapshot() == Drain(old(Snapshot()), fetched.value, oracles)
    {
      if fetched.None? {
        return;
      }
      var itens := fetched.value;
      for i := 0 to |itens|
        invariant Valid()
        invariant forall k :: 0 <= k < |itens| ==> itens[k] in fila
        invariant Drain(Snapshot(), itens[i..], oracles[i..]) == Drain(old(Snapshot()), itens, oracles)
      {
        var idFila := itens[i];
        var item := fila[idFila];
        var o := oracles[i];
        ghost var before := Snapshot();
        assert itens[i..][1..] == itens[i + 1..] && oracles[i..][1..] == oracles[i + 1..];
        if item.acao == "I" {
          if item.tipo == "E" {
            ProcessarEstruturado(idFila, item.referencia, item.conteudo, o);
          } else if item.tipo == "B" {
            ProcessarBinario(idFila, o);
          }
        } else if item.acao == "E" {
          RemoverDoRag(idFila, o);
        }
        if o.updateOk {
          fila := fila[idFila := item.(processedAt := Some(o.now))];
        }
        assert Snapshot() == ItemEffect(before, idFila, o);
      }
    }

    /** `processar_estruturado`: adds the whole content as one record; a failing add is swallowed. */
    method ProcessarEstruturado(idFila: int, referencia: string, conteudo: string, o: ItemOracle)
      modifies this
      ensures fila == old(fila)
      ensures vectorstore == StructuredStore(old(vectorstore), idFila, referencia, conteudo, o)
    {
      if o.addOk {
        vectorstore := vectorstore + [Record(o.newKey, conteudo, idFila, referencia)];
      }
    }

    /**
     * `processar_binario`: decode the payload, download the blob to
     * `/tmp/{hash}`, classify it, extract its text and add it as one record
     * with an empty `referencia`. Any raise is swallowed; an unsupported
     * format returns early.
     */
    method ProcessarBinario(idFila: int, o: ItemOracle)
      requires Valid()
      modifies this, fs
      ensures Valid() && fila == old(fila)
      ensures (vectorstore, fs.existing) == BinaryEffect(old(vectorstore), old(fs.existing), idFila, o)
    {
      if o.payload.None? {
        return;
      }
      var arquivoDestino := TempPath(o.payload.value.hash);
      if !o.downloadOk {
        return;
      }
      fs.Write(arquivoDestino);
      var tipoArquivo := VerificarFormato(arquivoDestino);
      var texto: string;
      match tipoArquivo {
        case None =>
          return;
        case Some(Pdf) =>
          texto := ProcessarPdf(fs, arquivoDestino, o.extraction.pdfDoc, o.extraction.pdfOcr);
        case Some(Imagem) =>
          texto := ProcessarImagem(fs, arquivoDestino, o.extraction.imageOcr);
        case Some(Audio) =>
          texto := ProcessarAudio(fs, arquivoDestino, o.extraction.transcricao);
        case Some(Video) =>
          texto := ProcessarVideo(fs, arquivoDestino, o.extraction.transcricao,
                                  o.extraction.ffmpegOk, o.extraction.leavesPartial);
      }
      if o.addOk {
        vectorstore := vectorstore + [Record(o.newKey, texto, idFila, "")];
      }
    }

    /** `remover_do_rag`: deletes by the single id `str(id_fila)`; a failing delete is swallowed. */
    method RemoverDoRag(idFila: int, o: ItemOracle)
      modifies this
      ensures fila == old(fila)
      ensures vectorstore == DeletedStore(old(vectorstore), idFila, o)
    {
      if o.deleteOk {
        vectorstore := RemoveKey(vectorstore, IntToString(idFila));
      }
    }
  }

  // ---------------------------------------------------------------------
  // What one item does
  // ---------------------------------------------------------------------

  /**
   * Whatever its handler did, an item ends up processed exactly when the
   * status update succeeds, and only its own row changes.
   */
  lemma ItemStatus(s: State, id: int, o: ItemOracle)
    requires id in s.fila
    ensures ItemEffect(s, id, o).fila[id].processedAt.Some? <==> o.updateOk || s.fila[id].processedAt.Some?
    ensures o.updateOk ==> ItemEffect(s, id, o).fila[id].processedAt == Some(o.now)
    ensures forall x :: x in s.fila && x != id ==> ItemEffect(s, id, o).fila[x] == s.fila[x]
    ensures forall x :: x in s.fila ==>
              ItemEffect(s, id, o).fila[x] == s.fila[x].(processedAt := ItemEffect(s, id, o).fila[x].processedAt)
  {
  }

  /** A structured insert stores the whole content, unchunked, as one record with metadata `{id_fila, referencia}`. */
  lemma StructuredInsertStoresWholeContent(s: State, id: int, o: ItemOracle)
    requires id in s.fila && s.fila[id].acao == "I" && s.fila[id].tipo == "E"
    ensures o.addOk ==>
              ItemEffect(s, id, o).store == s.store + [Record(o.newKey, s.fila[id].conteudo, id, s.fila[id].referencia)]
    ensures !o.addOk ==> ItemEffect(s, id, o).store == s.store
    ensures ItemEffect(s, id, o).files == s.files
  {
  }

  /**
   * A downloaded binary is classified by its hash. One of a supported format
   * is added as one record with an empty `referencia`, whatever text
   * (possibly `""`) its extractor returned; its temporary file is removed,
   * and the only file that can appear is the derived waveform of a video.
   * An unsupported one adds no record and its temporary file stays behind.
   */
  lemma BinaryInsert(s: State, id: int, o: ItemOracle)
    requires id in s.fila && s.fila[id].acao == "I" && s.fila[id].tipo == "B"
    requires o.payload.Some? && o.downloadOk
    ensures var path := TempPath(o.payload.value.hash);
            match VerificarFormato(o.payload.value.hash)
            case Some(f) =>
              && ItemEffect(s, id, o).store ==
                   (if o.addOk then s.store + [Record(o.newKey, ExtractedText(f, o.extraction), id, "")] else s.store)
              && ItemEffect(s, id, o).files == FilesAfterExtraction(s.files + {path}, path, f, o.extraction)
              && path !in ItemEffect(s, id, o).files
              && ItemEffect(s, id, o).files - {AudioPath(path)} <= s.files
            case None =>
              && ItemEffect(s, id, o).store == s.store
              && ItemEffect(s, id, o).files == s.files + {path}
  {
    var path := TempPath(o.payload.value.hash);
    TempPathClassifiesAsHash(o.payload.value.hash);
    var e := BinaryEffect(s.store, s.files, id, o);
    assert ItemEffect(s, id, o).store == e.0 && ItemEffect(s, id, o).files == e.1;
    match VerificarFormato(path)
    case None =>
      assert e == (s.store, s.files + {path});
    case Some(f) =>
      var texto := ExtractedText(f, o.extraction);
      assert e == (if o.addOk then s.store + [Record(o.newKey, texto, id, "")] else s.store,
                   FilesAfterExtraction(s.files + {path}, path, f, o.extraction));
      ExtractionRemovesInput(s.files + {path}, path, f, o.extraction);
  }

  /** A binary item whose payload cannot be decoded or whose download fails changes no record and no file. */
  lemma BinaryFailureChangesNothing(s: State, id: int, o: ItemOracle)
    requires id in s.fila && s.fila[id].acao == "I" && s.fila[id].tipo == "B"
    requires o.payload.None? || !o.downloadOk
    ensures ItemEffect(s, id, o).store == s.store && ItemEffect(s, id, o).files == s.files
  {
  }

  /**
   * A delete removes exactly the records keyed `str(id_fila)`, when the
   * store accepts it. Records keyed by another item's id stay; so do the
   * item's own records whenever the store keyed them differently, as it
   * does when it chooses keys on insert.
   */
  lemma DeleteRemovesOnlyOwnKey(s: State, id: int, o: ItemOracle)
    requires id in s.fila && s.fila[id].acao == "E"
    ensures forall rec :: rec in ItemEffect(s, id, o).store <==>
              rec in s.store && !(o.deleteOk && rec.key == IntToString(id))
    ensures forall rec, other :: rec in s.store && other != id && rec.key == IntToString(other) ==>
              rec in ItemEffect(s, id, o).store
    ensures forall rec :: rec in s.store && rec.idFila == id && rec.key != IntToString(id) ==>
              rec in ItemEffect(s, id, o).store
    ensures ItemEffect(s, id, o).files == s.files
  {
    forall rec, other | rec in s.store && other != id && rec.key == IntToString(other)
      ensures rec in ItemEffect(s, id, o).store
    {
      if IntToString(other) == IntToString(id) {
        IntToStringInjective(other, id);
      }
    }
  }

  /** Any other combination of `acao` and `tipo` touches no record and no file. */
  lemma OtherCombinationsTouchNothing(s: State, id: int, o: ItemOracle)
    requires id in s.fila
    requires var it := s.fila[id];
             (it.acao == "I" && it.tipo != "E" && it.tipo != "B") || (it.acao != "I" && it.acao != "E")
    ensures ItemEffect(s, id, o).store == s.store && ItemEffect(s, id, o).files == s.files
  {
  }

  /** Records an item adds carry its id and come from an insert; records it removes carry its `str(id)` key and come from a delete. */
  lemma ItemProvenance(s: State, id: int, o: ItemOracle)
    requires id in s.fila
    ensures forall rec :: rec in ItemEffect(s, id, o).store && rec !in s.store ==>
              rec.idFila == id && s.fila[id].acao == "I" && o.addOk && rec.key == o.newKey
    ensures forall rec :: rec in s.store && rec !in ItemEffect(s, id, o).store ==>
              s.fila[id].acao == "E" && o.deleteOk && rec.key == IntToString(id)
  {
  }

  /**
   * A file item `it` can leave behind: the download of a hash with no
   * supported extension, or the partial waveform of a video whose
   * extraction failed.
   */
  predicate LeavesBehind(it: Item, o: ItemOracle, file: string) {
    && it.acao == "I" && it.tipo == "B" && o.payload.Some? && o.downloadOk
    && var path := TempPath(o.payload.value.hash);
       || (VerificarFormato(o.payload.value.hash) == None && file == path)
       || (&& VerificarFormato(o.payload.value.hash) == Some(Video)
           && !o.extraction.ffmpegOk && o.extraction.leavesPartial && file == AudioPath(path))
  }

  /**
   * A file item `it` can remove: the download of a supported binary, or the
   * waveform of a video whose extraction succeeded.
   */
  predicate CleansUp(it: Item, o: ItemOracle, file: string) {
    && it.acao == "I" && it.tipo == "B" && o.payload.Some? && o.downloadOk
    && var path := TempPath(o.payload.value.hash);
       || (VerificarFormato(o.payload.value.hash).Some? && file == path)
       || (VerificarFormato(o.payload.value.hash) == Some(Video) && o.extraction.ffmpegOk && file == AudioPath(path))
  }

  /** The files a supported download's extractor adds to, or removes from, those present before the download. */
  lemma DownloadFiles(files: set<string>, path: string, f: Formato, e: Extraction)
    ensures forall file :: file in FilesAfterExtraction(files + {path}, path, f, e) && file !in files ==>
              f == Video && !e.ffmpegOk && e.leavesPartial && file == AudioPath(path)
    ensures forall file :: file in files && file !in FilesAfterExtraction(files + {path}, path, f, e) ==>
              file == path || (f == Video && e.ffmpegOk && file == AudioPath(path))
  {
    if f == Video {
      VideoCleanup(files + {path}, path, e.ffmpegOk, e.leavesPartial);
      AudioPathIsAudio(path);
    }
  }

  /** Only binary inserts touch files: every file an item adds it leaves behind, every file it removes it cleans up. */
  lemma ItemFiles(s: State, id: int, o: ItemOracle)
    requires id in s.fila
    ensures forall file :: file in ItemEffect(s, id, o).files && file !in s.files ==> LeavesBehind(s.fila[id], o, file)
    ensures forall file :: file in s.files && file !in ItemEffect(s, id, o).files ==> CleansUp(s.fila[id], o, file)
  {
    var it := s.fila[id];
    if it.acao == "I" && it.tipo == "B" && o.payload.Some? && o.downloadOk {
      var hash := o.payload.value.hash;
      BinaryInsert(s, id, o);
      match VerificarFormato(hash)
      case None =>
      case Some(f) =>
        DownloadFiles(s.files, TempPath(hash), f, o.extraction);
    } else if it.acao == "I" && it.tipo == "B" {
      BinaryFailureChangesNothing(s, id, o);
    } else if it.acao == "I" && it.tipo == "E" {
      StructuredInsertStoresWholeContent(s, id, o);
    } else if it.acao == "E" {
      assert ItemEffect(s, id, o).files == s.files;
    } else {
      OtherCombinationsTouchNothing(s, id, o);
    }
  }

  // ---------------------------------------------------------------------
  // What a drain does
  // ---------------------------------------------------------------------

  /**
   * Each fetched item ends up processed exactly when its own status update
   * succeeds, whatever happened to the items before it; every other row is
   * left as it was.
   */
  lemma {:induction false} DrainStatus(s: State, rows: seq<int>, oracles: seq<ItemOracle>)
    requires |oracles| == |rows|
    requires forall i :: 0 <= i < |rows| ==> rows[i] in s.fila
    requires forall i, j :: 0 <= i < j < |rows| ==> rows[i] != rows[j]
    ensures forall k :: 0 <= k < |rows| ==>
              Drain(s, rows, oracles).fila[rows[k]] ==
                if oracles[k].updateOk then s.fila[rows[k]].(processedAt := Some(oracles[k].now))
                else s.fila[rows[k]]
    ensures forall id :: id in s.fila && id !in rows ==> Drain(s, rows, oracles).fila[id] == s.fila[id]
    decreases |rows|
  {
    if rows != [] {
      var s1 := ItemEffect(s, rows[0], oracles[0]);
      ItemStatus(s, rows[0], oracles[0]);
      DrainStatus(s1, rows[1..], oracles[1..]);
      var r := Drain(s, rows, oracles);
      assert r == Drain(s1, rows[1..], oracles[1..]);
      forall k | 0 <= k < |rows|
        ensures r.fila[rows[k]] ==
                  if oracles[k].updateOk then s.fila[rows[k]].(processedAt := Some(oracles[k].now))
                  else s.fila[rows[k]]
      {
        if k == 0 {
          assert rows[0] !in rows[1..];
        } else {
          assert rows[k] == rows[1..][k - 1] && oracles[k] == oracles[1..][k - 1];
        }
      }
      forall id | id in s.fila && id !in rows
        ensures r.fila[id] == s.fila[id]
      {
        assert id !in rows[1..];
      }
    }
  }

  /** The number of distinct elements of a sequence is at most its length. */
  lemma {:induction false} DistinctElementsBound(rows: seq<int>)
    ensures |set x | x in rows| <= |rows|
    decreases |rows|
  {
    if rows != [] {
      DistinctElementsBound(rows[1..]);
      assert (set x | x in rows) == (set x | x in rows[1..]) + {rows[0]};
    }
  }

  /** The rows a drain changes are among the fetched ones, so there are at most as many as were fetched. */
  lemma DrainChangesOnlyFetched(s: State, rows: seq<int>, oracles: seq<ItemOracle>)
    requires |oracles| == |rows|
    requires forall i :: 0 <= i < |rows| ==> rows[i] in s.fila
    requires forall i, j :: 0 <= i < j < |rows| ==> rows[i] != rows[j]
    ensures var r := Drain(s, rows, oracles);
            |set id | id in s.fila && r.fila[id] != s.fila[id]| <= |rows|
  {
    var r := Drain(s, rows, oracles);
    DrainStatus(s, rows, oracles);
    var changed := set id | id in s.fila && r.fila[id] != s.fila[id];
    var fetchedIds := set x | x in rows;
    forall id | id in changed
      ensures id in fetchedIds
    {
    }
    DistinctElementsBound(rows);
    assert fetchedIds == changed + (fetchedIds - changed);
  }

  /**
   * A drain changes at most ten rows, each of them a fetched pending item
   * that it marks processed exactly when the update succeeds; a pending item
   * it did not fetch is still pending afterwards, to be fetched by a later
   * drain.
   */
  lemma DrainHandlesOneBatch(s: State, rows: seq<int>, oracles: seq<ItemOracle>)
    requires AnswersPendingQuery(s.fila, rows) && |oracles| == |rows|
    ensures var r := Drain(s, rows, oracles);
            |set id | id in s.fila && r.fila[id] != s.fila[id]| <= BatchSize
    ensures forall k :: 0 <= k < |rows| ==>
              (Drain(s, rows, oracles).fila[rows[k]].processedAt.Some? <==> oracles[k].updateOk)
    ensures forall id :: IsPending(s.fila, id) && id !in rows ==> IsPending(Drain(s, rows, oracles).fila, id)
  {
    DrainStatus(s, rows, oracles);
    DrainChangesOnlyFetched(s, rows, oracles);
  }

  /**
   * A drain only adds records that a fetched insert item produced, keyed as
   * the store chose and carrying that item's id, and only removes records
   * keyed by `str(id)` of a fetched delete item.
   */
  lemma {:induction false} DrainStoreProvenance(s: State, rows: seq<int>, oracles: seq<ItemOracle>)
    requires |oracles| == |rows|
    requires forall i :: 0 <= i < |rows| ==> rows[i] in s.fila
    ensures forall rec :: rec in Drain(s, rows, oracles).store && rec !in s.store ==>
              exists k :: 0 <= k < |rows| && rec.idFila == rows[k] && s.fila[rows[k]].acao == "I"
                          && oracles[k].addOk && rec.key == oracles[k].newKey
    ensures forall rec :: rec in s.store && rec !in Drain(s, rows, oracles).store ==>
              exists k :: 0 <= k < |rows| && s.fila[rows[k]].acao == "E"
                          && oracles[k].deleteOk && rec.key == IntToString(rows[k])
    decreases |rows|
  {
    if rows != [] {
      var s1 := ItemEffect(s, rows[0], oracles[0]);
      ItemStatus(s, rows[0], oracles[0]);
      ItemProvenance(s, rows[0], oracles[0]);
      DrainStoreProvenance(s1, rows[1..], oracles[1..]);
      var r := Drain(s, rows, oracles);
      assert r == Drain(s1, rows[1..], oracles[1..]);
      forall rec | rec in r.store && rec !in s.store
        ensures exists k :: 0 <= k < |rows| && rec.idFila == rows[k] && s.fila[rows[k]].acao == "I"
                            && oracles[k].addOk && rec.key == oracles[k].newKey
      {
        if rec in s1.store {
          assert rec.idFila == rows[0];
        } else {
          var k' :| 0 <= k' < |rows[1..]| && rec.idFila == rows[1..][k'] && s1.fila[rows[1..][k']].acao == "I"
                    && oracles[1..][k'].addOk && rec.key == oracles[1..][k'].newKey;
          assert rows[k' + 1] == rows[1..][k'] && oracles[k' + 1] == oracles[1..][k'];
        }
      }
      forall rec | rec in s.store && rec !in r.store
        ensures exists k :: 0 <= k < |rows| && s.fila[rows[k]].acao == "E"
                            && oracles[k].deleteOk && rec.key == IntToString(rows[k])
      {
        if rec !in s1.store {
          assert s.fila[rows[0]].acao == "E";
        } else {
          var k' :| 0 <= k' < |rows[1..]| && s1.fila[rows[1..][k']].acao == "E"
                    && oracles[1..][k'].deleteOk && rec.key == IntToString(rows[1..][k']);
          assert rows[k' + 1] == rows[1..][k'] && oracles[k' + 1] == oracles[1..][k'];
        }
      }
    }
  }

  /**
   * A drain leaves behind only files a fetched binary insert left: the
   * download of an unsupported hash or the partial waveform of a failed
   * video extraction. It removes only files a fetched binary insert cleaned
   * up: a supported download or the waveform of a successful extraction.
   */
  lemma {:induction false} DrainFiles(s: State, rows: seq<int>, oracles: seq<ItemOracle>)
    requires |oracles| == |rows|
    requires forall i :: 0 <= i < |rows| ==> rows[i] in s.fila
    ensures forall file :: file in Drain(s, rows, oracles).files && file !in s.files ==>
              exists k :: 0 <= k < |rows| && LeavesBehind(s.fila[rows[k]], oracles[k], file)
    ensures forall file :: file in s.files && file !in Drain(s, rows, oracles).files ==>
              exists k :: 0 <= k < |rows| && CleansUp(s.fila[rows[k]], oracles[k], file)
    decreases |rows|
  {
    if rows != [] {
      var s1 := ItemEffect(s, rows[0], oracles[0]);
      ItemStatus(s, rows[0], oracles[0]);
      ItemFiles(s, rows[0], oracles[0]);
      DrainFiles(s1, rows[1..], oracles[1..]);
      var r := Drain(s, rows, oracles);
      assert r == Drain(s1, rows[1..], oracles[1..]);
      forall file | file in r.files && file !in s.files
        ensures exists k :: 0 <= k < |rows| && LeavesBehind(s.fila[rows[k]], oracles[k], file)
      {
        if file in s1.files {
          assert LeavesBehind(s.fila[rows[0]], oracles[0], file);
        } else {
          var k' :| 0 <= k' < |rows[1..]| && LeavesBehind(s1.fila[rows[1..][k']], oracles[1..][k'], file);
          assert rows[k' + 1] == rows[1..][k'] && oracles[k' + 1] == oracles[1..][k'];
          SameKind(s.fila[rows[k' + 1]], s1.fila[rows[k' + 1]], oracles[k' + 1], file);
        }
      }
      forall file | file in s.files && file !in r.files
        ensures exists k :: 0 <= k < |rows| && CleansUp(s.fila[rows[k]], oracles[k], file)
      {
        if file !in s1.files {
          assert CleansUp(s.fila[rows[0]], oracles[0], file);
        } else {
          var k' :| 0 <= k' < |rows[1..]| && CleansUp(s1.fila[rows[1..][k']], oracles[1..][k'], file);
          assert rows[k' + 1] == rows[1..][k'] && oracles[k' + 1] == oracles[1..][k'];
          SameKind(s.fila[rows[k' + 1]], s1.fila[rows[k' + 1]], oracles[k' + 1], file);
        }
      }
    }
  }

  /** Whether an item leaves or cleans up a file depends on its `acao` and `tipo`, not on its status. */
  lemma SameKind(it: Item, it': Item, o: ItemOracle, file: string)
    requires it' == it.(processedAt := it'.processedAt)
    ensures LeavesBehind(it', o, file) <==> LeavesBehind(it, o, file)
    ensures CleansUp(it', o, file) <==> CleansUp(it, o, file)
  {
  }
}
