/** `engine.API_URL_BASE`: the two base URLs of the ClickUp REST API. */
module ApiUrlBase {

  datatype ApiUrlBase = ClickUpV2ApiUrlBase | TaskApiUrlBase {

    /** The URL each constant was constructed with. */
    function GetUrl(): (url: string)
      ensures |url| > 8 && url[..8] == "https://"
      ensures url[|url| - 1] == '/'
      decreases if ClickUpV2ApiUrlBase? then 0 else 1
    {
      match this
      case ClickUpV2ApiUrlBase => "https://api.clickup.com/api/v2/"
      case TaskApiUrlBase => ClickUpV2ApiUrlBase.GetUrl() + "task/"
    }
  }

  /** The v2 base is the API's root; the task base is it with the `task/` segment appended. */
  lemma TaskBaseExtendsV2Base()
    ensures ClickUpV2ApiUrlBase.GetUrl() == "https://api.clickup.com/api/v2/"
    ensures TaskApiUrlBase.GetUrl() == ClickUpV2ApiUrlBase.GetUrl() + "task/"
    ensures TaskApiUrlBase.GetUrl() == "https://api.clickup.com/api/v2/task/"
  {
  }
}
