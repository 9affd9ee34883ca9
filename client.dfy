/** The resource client object: its configuration and the two progress
    values that `getStatusMessage` updates in place while `upload` and
    `download` fold the transport's event stream. */
module Client {
  import opened Url
  import opened Progress
  import Requests

  class AbstractRequest {
    const config: Config
    /** Latest upload percentage; starts at 0. */
    var uploadProgress: int
    /** Latest download percentage; starts at 0. */
    var downloadProgress: int

    constructor (config: Config)
      ensures this.config == config
      ensures uploadProgress == 0 && downloadProgress == 0
    {
      this.config := config;
      uploadProgress := 0;
      downloadProgress := 0;
    }

    function State(): Channels
      reads this
    {
      Channels(uploadProgress, downloadProgress)
    }

    /** `getStatusMessage`: the message for one event; a progress event also
        stores its percentage in the field of its own kind. */
    method GetStatusMessage(event: Event) returns (message: string)
      requires Measurable(event)
      modifies this
      ensures message == StatusMessage(event)
      ensures State() == Step(old(State()), event)
    {
      match event {
        case Sent =>
          message := "Uploading Files";
        case UploadProgress(loaded, total) =>
          var status := Percent(loaded, total);
          uploadProgress := status;
          message := "Files are " + IntToString(status) + "% uploaded";
        case DownloadProgress(loaded, total) =>
          var status := Percent(loaded, total);
          downloadProgress := status;
          message := "Files are " + IntToString(status) + "% downloaded";
        case Response(body) =>
          message := body;
        case _ =>
          message := "Something went wrong";
      }
    }

    /** The stream pipeline of `upload` and `download`: every event goes
        through `getStatusMessage` in arrival order and only the last message
        is kept. */
    method Transfer(events: seq<Event>) returns (result: string)
      requires |events| > 0 && AllMeasurable(events)
      modifies this
      ensures result == StatusMessage(events[|events| - 1])
      ensures events[|events| - 1].Response? ==> result == events[|events| - 1].body
      ensures State() == Fold(old(State()), events)
    {
      ghost var start := State();
      result := "";
      var i := 0;
      while i < |events|
        invariant 0 <= i <= |events|
        invariant AllMeasurable(events[..i])
        invariant State() == Fold(start, events[..i])
        invariant i > 0 ==> result == StatusMessage(events[i - 1])
      {
        result := GetStatusMessage(events[i]);
        assert events[..i + 1][..i] == events[..i];
        i := i + 1;
      }
      assert events[..i] == events;
    }

    /** `upload(form, idOrQuery, action)`: a string identifier is taken as
        the action; `events` is what the transport reports for the POST
        request sent to `url`. */
    method Upload(idOrQuery: Arg, action: Option<string>, events: seq<Event>) returns (url: string, result: string)
      requires |events| > 0 && AllMeasurable(events)
      modifies this
      ensures url == Requests.RequestUrl(config, Requests.Upload(idOrQuery, action))
      ensures result == StatusMessage(events[|events| - 1])
      ensures State() == Fold(old(State()), events)
    {
      var target, id := Requests.OptionalAction(action), idOrQuery;
      if id.Str? {
        target := id;
        id := Null;
      }
      url := GetUrl(config, target, id);
      result := Transfer(events);
    }

    /** `download(idOrQuery, action)`: as `upload`, for the GET request. */
    method Download(idOrQuery: Arg, action: Option<string>, events: seq<Event>) returns (url: string, result: string)
      requires |events| > 0 && AllMeasurable(events)
      modifies this
      ensures url == Requests.RequestUrl(config, Requests.Download(idOrQuery, action))
      ensures result == StatusMessage(events[|events| - 1])
      ensures State() == Fold(old(State()), events)
    {
      var target, id := Requests.OptionalAction(action), idOrQuery;
      if id.Str? {
        target := id;
        id := Null;
      }
      url := GetUrl(config, target, id);
      result := Transfer(events);
    }
  }
}
