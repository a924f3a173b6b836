/** The requests the ArcGIS REST connector sends, and the reshaping of rows
    into the feature list that `addFeatures` accepts. Sending a request and
    reading its JSON answer are not modelled: the token a request carries is
    a parameter. */
module ArcGis {
  import opened Base

  /** The attributes of one feature: field name to value. */
  type Attributes = map<string, Value>

  /** `{"attributes": {...}}` */
  type Feature = map<string, Attributes>

  /** A form parameter before url-encoding. */
  datatype Param =
    | Plain(s: string)
    | FeatureList(features: seq<Feature>)

  /** A POST to `url` with its form parameters (a dictionary: each name once). */
  datatype Request = Request(url: string, params: map<string, Param>)

  /** The connector's credentials: set once, never changed. */
  datatype Connector = Connector(username: string, password: string, portal: string)

  /** The request `_generate_token` sends to the portal: the credentials, with
      the portal itself as referer, to the portal's token endpoint. */
  function TokenRequest(c: Connector): (r: Request)
    ensures r.url == c.portal + "/portal/sharing/rest/generateToken"
    ensures r.params.Keys == {"f", "username", "password", "referer"}
    ensures r.params["f"] == Plain("pjson")
    ensures r.params["username"] == Plain(c.username) && r.params["password"] == Plain(c.password)
    ensures r.params["referer"] == Plain(c.portal)
  {
    Request(c.portal + "/portal/sharing/rest/generateToken",
      map["f" := Plain("pjson"), "username" := Plain(c.username),
          "password" := Plain(c.password), "referer" := Plain(c.portal)])
  }

  /** The request `query_fc` sends: every field of the rows matching `query`. */
  function QueryFcRequest(serviceUrl: string, query: string, token: string): (r: Request)
    ensures r.url == serviceUrl + "/query?"
    ensures r.params.Keys == {"where", "outFields", "f", "token"}
    ensures r.params["where"] == Plain(query) && r.params["outFields"] == Plain("*")
    ensures r.params["f"] == Plain("json") && r.params["token"] == Plain(token)
  {
    Request(serviceUrl + "/query?",
      map["where" := Plain(query), "outFields" := Plain("*"), "f" := Plain("json"), "token" := Plain(token)])
  }

  /** The request `insert_records` sends: the features to `addFeatures`. */
  function InsertRecordsRequest(serviceUrl: string, features: seq<Feature>, token: string): (r: Request)
    ensures r.url == serviceUrl + "/addFeatures"
    ensures r.params.Keys == {"f", "features", "token"}
    ensures r.params["f"] == Plain("json") && r.params["token"] == Plain(token)
    ensures r.params["features"] == FeatureList(features)
  {
    Request(serviceUrl + "/addFeatures",
      map["f" := Plain("json"), "features" := FeatureList(features), "token" := Plain(token)])
  }

  /** The request `query_max_id` sends: the output statistics `query` asks for. */
  function QueryMaxIdRequest(serviceUrl: string, query: string, token: string): (r: Request)
    ensures r.url == serviceUrl + "/query?"
    ensures r.params.Keys == {"f", "token", "outStatistics"}
    ensures r.params["f"] == Plain("json") && r.params["token"] == Plain(token)
    ensures r.params["outStatistics"] == Plain(query)
  {
    Request(serviceUrl + "/query?",
      map["f" := Plain("json"), "token" := Plain(token), "outStatistics" := Plain(query)])
  }

  /** The two queries of one service go to the same endpoint and differ in
      what they ask: `query_fc` a `where` clause over all fields,
      `query_max_id` statistics and no `where` clause. Every request to a
      service carries the token and asks for JSON. */
  lemma QueriesShareEndpoint(serviceUrl: string, query: string, statistics: string, features: seq<Feature>, token: string)
    ensures QueryFcRequest(serviceUrl, query, token).url == QueryMaxIdRequest(serviceUrl, statistics, token).url
    ensures "where" !in QueryMaxIdRequest(serviceUrl, statistics, token).params
    ensures "outStatistics" !in QueryFcRequest(serviceUrl, query, token).params
    ensures forall r :: r in {QueryFcRequest(serviceUrl, query, token), QueryMaxIdRequest(serviceUrl, statistics, token),
                              InsertRecordsRequest(serviceUrl, features, token)} ==>
      serviceUrl < r.url && r.params["token"] == Plain(token) && r.params["f"] == Plain("json")
  {
  }

  /** `ArcGisRestConnector.data_handler(data)`: each row wrapped as
      `{"attributes": row}`, in order. An empty list reaches `data[0]` and
      raises IndexError. */
  method DataHandler(data: seq<Attributes>) returns (reshaped: Result<seq<Feature>>)
    ensures reshaped.Err? <==> data == []
    ensures reshaped.Err? ==> reshaped.error == IndexError
    ensures reshaped.Ok? ==> |reshaped.value| == |data|
    ensures reshaped.Ok? ==> forall i :: 0 <= i < |data| ==>
      reshaped.value[i].Keys == {"attributes"} && reshaped.value[i]["attributes"] == data[i]
  {
    if |data| == 0 {
      return Err(IndexError);
    }
    var features: seq<Feature> := [];
    var i := 0;
    while i < |data|
      invariant 0 <= i <= |data|
      invariant |features| == i
      invariant forall k :: 0 <= k < i ==> features[k] == map["attributes" := data[k]]
    {
      features := features + [map["attributes" := data[i]]];
      i := i + 1;
    }
    reshaped := Ok(features);
  }

  /** The attributes of each feature, in order. */
  function AttributesOf(features: seq<Feature>): seq<Attributes>
  {
    seq(|features|, i requires 0 <= i < |features| => if "attributes" in features[i] then features[i]["attributes"] else map[])
  }

  /** Reshaping loses nothing: the attributes of the features are the rows. */
  method DataHandlerRoundTrip(data: seq<Attributes>) returns (back: Option<seq<Attributes>>)
    ensures data != [] ==> back == Some(data)
    ensures data == [] ==> back == None
  {
    var reshaped := DataHandler(data);
    if reshaped.Err? {
      return None;
    }
    back := Some(AttributesOf(reshaped.value));
    assert back.value == data;
  }
}
