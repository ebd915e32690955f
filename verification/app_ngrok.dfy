/** The pieces of app_ngrok.py between its service calls: the transcript handler feeding
    `cancellable_socket_handle_text` (written as in app.py, so modelled by `App.CommandSlot`), the
    6400-byte upload loop, the `.wav` path derived from the uploaded `.webm`, and the public audio
    URL. */
module AppNgrok {
  import opened Options
  import opened Tasks
  import opened PyStr
  import opened Transcripts
  import opened Chunking
  import opened App

  /** `chunk_size` of `process_audio_file`. */
  const CHUNK_SIZE: nat := 6400

  /** `app.config['SERVER_NAME']` */
  const SERVER_NAME: string := "0747-34-222-37-198.ngrok-free.app"

  const WEBM: string := ".webm"
  const WAV: string := ".wav"
  const HISTORY_ROUTE: string := "/history_result/"

  /** `MyTranscriptHandler.handle_transcript_event`: the stripped first alternative of each
      final result is handed to `cancellable_socket_handle_text` when non-empty; a final result
      without alternatives raises `IndexError` and ends the event. */
  method HandleTranscriptEvent(slot: CommandSlot, results: seq<TranscriptResult>) returns (raised: bool)
    requires slot.Valid()
    modifies slot
    ensures slot.Valid()
    ensures raised == FirstAlternativesUnchecked(results).raised
    ensures (slot.tasks, slot.currentTask)
      == HandleTexts(old(slot.tasks), old(slot.currentTask), FirstAlternativesUnchecked(results).texts)
  {
    var i := 0;
    ghost var handled: seq<string> := [];
    while i < |results|
      invariant 0 <= i <= |results|
      invariant slot.Valid()
      invariant !FirstAlternativesUnchecked(results[..i]).raised
      invariant handled == FirstAlternativesUnchecked(results[..i]).texts
      invariant (slot.tasks, slot.currentTask) == HandleTexts(old(slot.tasks), old(slot.currentTask), handled)
    {
      UncheckedStep(results, i);
      HandleTextsAppend(old(slot.tasks), old(slot.currentTask), handled, FirstText(results[i]));
      raised := HandleResult(slot, results[i]);
      if raised {
        FirstUncheckedStops(results, i + 1);
        return;
      }
      handled := handled + FirstText(results[i]);
      i := i + 1;
    }
    assert results[..i] == results;
    return false;
  }

  /** The body of the loop over `transcript_event.transcript.results`, for one result. */
  method HandleResult(slot: CommandSlot, result: TranscriptResult) returns (raised: bool)
    requires slot.Valid()
    modifies slot
    ensures slot.Valid()
    ensures raised == Unindexable(result)
    ensures (slot.tasks, slot.currentTask) == HandleTexts(old(slot.tasks), old(slot.currentTask), FirstText(result))
  {
    if !result.isPartial {
      if result.alternatives == [] {
        return true;
      }
      var text := Strip(result.alternatives[0]);
      if text != [] {
        slot.CancellableSocketHandleText(text);
        assert [text][1..] == [];
      }
    }
    return false;
  }

  /** The upload loop of `process_audio_file`: `pcm_data[i:i+6400]` for `i` in
      `range(0, len(pcm_data), 6400)`. */
  method SendChunks(pcmData: seq<Byte>) returns (sent: seq<seq<Byte>>)
    ensures sent == Chunks(pcmData, CHUNK_SIZE)
    ensures Flatten(sent) == pcmData && WellSized(sent, CHUNK_SIZE)
  {
    sent := [];
    var i := 0;
    while i < |pcmData|
      invariant sent + ChunksFrom(pcmData, CHUNK_SIZE, i) == Chunks(pcmData, CHUNK_SIZE)
      decreases |pcmData| - i
    {
      var chunk := pcmData[i..Min(i + CHUNK_SIZE, |pcmData|)];
      ChunksStep(pcmData, CHUNK_SIZE, sent, i);
      sent := sent + [chunk];
      i := i + CHUNK_SIZE;
    }
    assert sent + [] == sent;
    ChunksCover(pcmData, CHUNK_SIZE);
  }

  /** `file_path.replace('.webm', '.wav')` */
  function PcmPath(filePath: string): string {
    ReplaceAll(filePath, WEBM, WAV)
  }

  /** A path without `.webm` in it is used unchanged. */
  lemma {:induction false} ReplaceAbsent(s: string, pat: string, rep: string)
    requires |pat| > 0 && !Contains(s, pat)
    ensures ReplaceAll(s, pat, rep) == s
    decreases |s|
  {
    if |s| >= |pat| {
      assert !OccursAt(s, pat, 0);
      assert s[..|pat|] != pat;
      forall i | 0 <= i <= |s[1..]| - |pat|
        ensures !OccursAt(s[1..], pat, i)
      {
        OccursShift(s, pat, i + 1);
      }
      ReplaceAbsent(s[1..], pat, rep);
      assert [s[0]] + s[1..] == s;
    }
  }

  /** A scan that finds the pattern first at the very end replaces just that occurrence. */
  lemma {:induction false} ReplaceTrailing(s: string, pat: string, rep: string)
    requires |pat| > 0
    requires forall i :: 0 <= i < |s| ==> !OccursAt(s + pat, pat, i)
    ensures ReplaceAll(s + pat, pat, rep) == s + rep
    decreases |s|
  {
    if s == [] {
      assert s + pat == pat && pat[..|pat|] == pat;
      assert ReplaceAll(pat[|pat|..], pat, rep) == [];
    } else {
      assert !OccursAt(s + pat, pat, 0);
      assert (s + pat)[1..] == s[1..] + pat;
      forall i | 0 <= i < |s[1..]|
        ensures !OccursAt(s[1..] + pat, pat, i)
      {
        OccursShift(s + pat, pat, i + 1);
      }
      ReplaceTrailing(s[1..], pat, rep);
      assert (s + pat)[..|pat|] != pat;
      assert ReplaceAll(s + pat, pat, rep) == [s[0]] + ReplaceAll(s[1..] + pat, pat, rep);
      assert [s[0]] + (s[1..] + rep) == s + rep;
    }
  }

  /** The recording `stem + ".webm"` is converted to `stem + ".wav"` when the stem holds no other
      `.webm`. */
  lemma PcmPathOfRecording(stem: string)
    requires !Contains(stem, WEBM)
    ensures PcmPath(stem + WEBM) == stem + WAV
  {
    var s := stem + WEBM;
    forall i | 0 <= i < |stem|
      ensures !OccursAt(s, WEBM, i)
    {
      if i + |WEBM| <= |stem| {
        assert s[i..i + |WEBM|] == stem[i..i + |WEBM|];
        assert !OccursAt(stem, WEBM, i);
      } else {
        // the occurrence would have to put a later character of `.webm` on the final dot
        var k := |stem| - i;
        assert s[i..i + |WEBM|][k] == s[|stem|] == '.';
        assert WEBM[k] != '.';
      }
    }
    ReplaceTrailing(stem, WEBM, WAV);
  }

  /** A path with no `.webm` in it is its own PCM path. */
  lemma PcmPathWithoutWebm(filePath: string)
    requires !Contains(filePath, WEBM)
    ensures PcmPath(filePath) == filePath
  {
    ReplaceAbsent(filePath, WEBM, WAV);
  }

  /** `server_name`, with `https://` put in front unless it already starts with `http`. */
  function ServerBase(serverName: string): (r: string)
    ensures StartsWith(r, "http")
    ensures |serverName| <= |r| && r[|r| - |serverName|..] == serverName
    ensures StartsWith(serverName, "http") <==> r == serverName
    ensures !StartsWith(serverName, "http") ==> r == "https://" + serverName
  {
    if StartsWith(serverName, "http") then serverName else "https://" + serverName
  }

  /** Putting the scheme in front a second time changes nothing. */
  lemma ServerBaseIdempotent(serverName: string)
    ensures ServerBase(ServerBase(serverName)) == ServerBase(serverName)
  {
  }

  /** `os.path.basename(p)`: the part of `p` after its last `/`. */
  function Basename(p: string): (r: string)
    ensures |r| <= |p| && r == p[|p| - |r|..]
    ensures forall i :: 0 <= i < |r| ==> r[i] != '/'
    ensures |r| < |p| ==> p[|p| - |r| - 1] == '/'
    decreases |p|
  {
    if p == [] then []
    else if p[|p| - 1] == '/' then []
    else
      var q := p[..|p| - 1];
      var b := Basename(q);
      BasenameStep(p, q, b);
      b + [p[|p| - 1]]
  }

  /** Adding the last character of `p` to the base name of the rest keeps it a suffix of `p`. */
  lemma BasenameStep(p: string, q: string, b: string)
    requires |p| > 0 && q == p[..|p| - 1]
    requires |b| <= |q| && b == q[|q| - |b|..]
    requires |b| < |q| ==> q[|q| - |b| - 1] == '/'
    ensures b + [p[|p| - 1]] == p[|p| - 1 - |b|..]
    ensures |b| < |q| ==> p[|p| - |b| - 2] == '/'
  {
    assert p == q + [p[|p| - 1]];
  }

  /** Basename is the whole path exactly when the path has no `/`. */
  lemma {:induction false} BasenameWhole(p: string)
    ensures Basename(p) == p <==> forall i :: 0 <= i < |p| ==> p[i] != '/'
  {
    var b := Basename(p);
    if |b| < |p| {
      assert p[|p| - |b| - 1] == '/';
    }
  }

  /** `audio_url` of `handle_text`: the server base, the history route, then the file name. */
  function AudioUrl(serverName: string, audioPath: string): (r: string)
    ensures StartsWith(r, "http")
    ensures var tail := HISTORY_ROUTE + Basename(audioPath);
      |tail| <= |r| && r[|r| - |tail|..] == tail
    ensures r == ServerBase(serverName) + HISTORY_ROUTE + Basename(audioPath)
  {
    var base := ServerBase(serverName);
    var tail := HISTORY_ROUTE + Basename(audioPath);
    Affixes(base, tail);
    base + tail
  }

  lemma Affixes(base: string, tail: string)
    requires StartsWith(base, "http")
    ensures StartsWith(base + tail, "http")
    ensures (base + tail)[|base + tail| - |tail|..] == tail
  {
    assert (base + tail)[..4] == base[..4];
  }

  /** `audio_url` as `handle_text` builds it from `app.config.get('SERVER_NAME', ...)`. Flask's
      default configuration already holds the key `SERVER_NAME` with the value `None`, so the
      `.get` default is never used: an unset name reaches `.startswith` as `None` and raises
      `AttributeError`, which is `None` here. */
  function ConfiguredAudioUrl(serverName: Option<string>, audioPath: string): (r: Option<string>)
    ensures r.None? <==> serverName.None?
    ensures r.Some? ==> StartsWith(r.value, "http")
    ensures r.Some? ==> r.value == AudioUrl(serverName.value, audioPath)
  {
    if serverName.None? then None else Some(AudioUrl(serverName.value, audioPath))
  }

  /** With the configured host the audio is served over HTTPS from the ngrok domain, and the URL
      ends with the file's own name. */
  lemma AudioUrlOfConfiguredServer(audioPath: string)
    ensures ConfiguredAudioUrl(Some(SERVER_NAME), audioPath)
      == Some("https://" + SERVER_NAME + HISTORY_ROUTE + Basename(audioPath))
  {
    ConfiguredBase();
    var b := Basename(audioPath);
    assert AudioUrl(SERVER_NAME, audioPath) == ServerBase(SERVER_NAME) + (HISTORY_ROUTE + b);
    assert ("https://" + SERVER_NAME) + (HISTORY_ROUTE + b) == "https://" + SERVER_NAME + HISTORY_ROUTE + b;
  }

  /** The configured host carries no scheme, so `https://` is put in front of it. */
  lemma ConfiguredBase()
    ensures ServerBase(SERVER_NAME) == "https://" + SERVER_NAME
  {
    assert SERVER_NAME[..4] != "http" by { assert SERVER_NAME[0] == '0'; }
  }
}
