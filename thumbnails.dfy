/**
 * The thumbnail table of `youtube_thumbnail` (app.py) and the choice of one
 * entry: the requested quality, `maxres` for an unknown one, and `high`
 * whenever the existence check on the requested image does not answer 200.
 */
module Thumbnails {

  const ThumbnailBase := "https://i.ytimg.com/vi/"

  /** The five quality keys the service knows. */
  const QualityKeys: set<string> := {"maxres", "high", "medium", "default", "sddefault"}

  function ThumbnailUrl(id: string, file: string): string {
    ThumbnailBase + id + "/" + file
  }

  /** The `qualities` dictionary for the video `id`. */
  function QualityTable(id: string): map<string, string> {
    map[
      "maxres" := ThumbnailUrl(id, "maxresdefault.jpg"),
      "high" := ThumbnailUrl(id, "hqdefault.jpg"),
      "medium" := ThumbnailUrl(id, "mqdefault.jpg"),
      "default" := ThumbnailUrl(id, "default.jpg"),
      "sddefault" := ThumbnailUrl(id, "sddefault.jpg")
    ]
  }

  /** `qualities.get(quality, qualities['maxres'])`: the image whose existence is checked. */
  function RequestedThumbnail(id: string, quality: string): (url: string)
    ensures url in QualityTable(id).Values
    ensures quality in QualityKeys ==> url == QualityTable(id)[quality]
    ensures quality !in QualityKeys ==> url == ThumbnailUrl(id, "maxresdefault.jpg")
  {
    var table := QualityTable(id);
    if quality in table then table[quality] else table["maxres"]
  }

  /** The image finally returned, given the status of the existence check. */
  function ChosenThumbnail(id: string, quality: string, checkStatus: int): (url: string)
    ensures url in QualityTable(id).Values
    ensures checkStatus != 200 ==> url == ThumbnailUrl(id, "hqdefault.jpg")
    ensures checkStatus == 200 ==> url == RequestedThumbnail(id, quality)
  {
    var url := RequestedThumbnail(id, quality);
    if checkStatus != 200 then QualityTable(id)["high"] else url
  }

  /** Two thumbnail URLs for identifiers of the same length agree only when identifier and file agree. */
  lemma ThumbnailUrlInjective(id1: string, file1: string, id2: string, file2: string)
    requires |id1| == |id2|
    requires ThumbnailUrl(id1, file1) == ThumbnailUrl(id2, file2)
    ensures id1 == id2 && file1 == file2
  {
    var u := ThumbnailUrl(id1, file1);
    var n := |ThumbnailBase|;
    assert u[n..n + |id1|] == id1 by {
      assert u == ThumbnailBase + (id1 + ("/" + file1));
    }
    assert ThumbnailUrl(id2, file2)[n..n + |id2|] == id2 by {
      assert ThumbnailUrl(id2, file2) == ThumbnailBase + (id2 + ("/" + file2));
    }
    assert u[n + |id1| + 1..] == file1 by {
      assert u == (ThumbnailBase + id1 + "/") + file1;
    }
    assert ThumbnailUrl(id2, file2)[n + |id2| + 1..] == file2 by {
      assert ThumbnailUrl(id2, file2) == (ThumbnailBase + id2 + "/") + file2;
    }
  }

  /** The file name each quality key stands for. */
  function QualityFile(quality: string): string
    requires quality in QualityKeys
  {
    match quality
    case "maxres" => "maxresdefault.jpg"
    case "high" => "hqdefault.jpg"
    case "medium" => "mqdefault.jpg"
    case "default" => "default.jpg"
    case "sddefault" => "sddefault.jpg"
  }

  /**
   * The table has exactly the five documented keys, and every entry is the
   * `.jpg` image its key stands for under `https://i.ytimg.com/vi/<id>/`.
   */
  lemma QualityTableEntries(id: string)
    ensures QualityTable(id).Keys == QualityKeys
    ensures forall q :: q in QualityKeys ==> QualityTable(id)[q] == ThumbnailUrl(id, QualityFile(q))
    ensures forall q :: q in QualityKeys ==> |QualityFile(q)| > 4 && QualityFile(q)[|QualityFile(q)| - 4..] == ".jpg"
  {
  }

  /** Distinct qualities name distinct images, so the table can be read backwards. */
  lemma QualityTableInjective(id: string, q1: string, q2: string)
    requires q1 in QualityKeys && q2 in QualityKeys
    requires QualityTable(id)[q1] == QualityTable(id)[q2]
    ensures q1 == q2
  {
    QualityTableEntries(id);
    ThumbnailUrlInjective(id, QualityFile(q1), id, QualityFile(q2));
  }

  /** A requested quality the table knows selects that quality's image, when it exists. */
  lemma KnownQualitySelected(id: string, quality: string)
    requires quality in QualityKeys
    ensures ChosenThumbnail(id, quality, 200) == QualityTable(id)[quality]
  {
  }

  /** `quality=medium` with a reachable image gives the `mqdefault.jpg` image. */
  lemma MediumQualityIsMq(id: string)
    ensures ChosenThumbnail(id, "medium", 200) == "https://i.ytimg.com/vi/" + id + "/mqdefault.jpg"
  {
  }

  /** An unknown quality falls back to `maxres`; a failed check falls back to `high`, whatever was asked. */
  lemma FallbackQualities(id: string, quality: string, checkStatus: int)
    ensures quality !in QualityKeys && checkStatus == 200 ==>
      ChosenThumbnail(id, quality, checkStatus) == QualityTable(id)["maxres"]
    ensures checkStatus != 200 ==>
      ChosenThumbnail(id, quality, checkStatus) == ChosenThumbnail(id, "high", 200)
  {
  }
}
