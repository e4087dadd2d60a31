/** The frontend's request paths against the backend's route table: each
    path `api.js` builds, with the backend's origin stripped, splits into the
    segments of exactly the route that serves it, with the file id bound to
    `file_id` where there is one. */
module Endpoints {
  import opened Wrappers
  import opened Paths
  import Api
  import Server

  // ---------------------------------------------------------------------
  // The paths the frontend builds

  lemma JoinTwo(x: string, y: string)
    ensures Join([x, y]) == "/" + x + ("/" + y + "")
  {
    assert [x, y] == [x] + ([y] + []);
    JoinCons(y, []);
    JoinCons(x, [y]);
  }

  lemma JoinThree(x: string, y: string, z: string)
    ensures Join([x, y, z]) == "/" + x + ("/" + y + ("/" + z + ""))
  {
    assert [x, y, z] == [x] + [y, z];
    JoinTwo(y, z);
    JoinCons(x, [y, z]);
  }

  lemma JoinFour(w: string, x: string, y: string, z: string)
    ensures Join([w, x, y, z]) == "/" + w + ("/" + x + ("/" + y + ("/" + z + "")))
  {
    assert [w, x, y, z] == [w] + [x, y, z];
    JoinThree(x, y, z);
    JoinCons(w, [x, y, z]);
  }

  /** The delete path is the origin followed by /api/files/<id>. */
  lemma DeletePathShape(backendUrl: string, fileId: string)
    ensures Api.DeletePath(backendUrl, fileId) == backendUrl + Join(["api", "files", fileId])
  {
    JoinThree("api", "files", fileId);
  }

  /** Its segments are api, files and the id. */
  lemma DeleteSegments(fileId: string)
    requires '/' !in fileId
    ensures Segments(Join(["api", "files", fileId])) == ["api", "files", fileId]
  {
    SegmentsJoin(["api", "files", fileId]);
  }

  lemma DownloadPathShape(backendUrl: string, fileId: string)
    ensures Api.DownloadPath(backendUrl, fileId) == backendUrl + Join(["api", "files", fileId, "download"])
  {
    JoinFour("api", "files", fileId, "download");
  }

  lemma DownloadSegments(fileId: string)
    requires '/' !in fileId
    ensures Segments(Join(["api", "files", fileId, "download"])) == ["api", "files", fileId, "download"]
  {
    SegmentsJoin(["api", "files", fileId, "download"]);
  }

  lemma UploadPathShape(backendUrl: string)
    ensures Api.UploadPath(backendUrl) == backendUrl + Join(["api", "files", "upload"])
  {
    JoinThree("api", "files", "upload");
  }

  lemma UploadSegments()
    ensures Segments(Join(["api", "files", "upload"])) == ["api", "files", "upload"]
  {
    SegmentsJoin(["api", "files", "upload"]);
  }

  lemma FilesPathShape(backendUrl: string)
    ensures Api.FilesPath(backendUrl) == backendUrl + Join(["api", "files"])
  {
    JoinTwo("api", "files");
  }

  lemma FilesSegments()
    ensures Segments(Join(["api", "files"])) == ["api", "files"]
  {
    SegmentsJoin(["api", "files"]);
  }

  lemma StatsPathShape(backendUrl: string)
    ensures Api.StatsPath(backendUrl) == backendUrl + Join(["api", "dashboard", "stats"])
  {
    JoinThree("api", "dashboard", "stats");
  }

  lemma StatsSegments()
    ensures Segments(Join(["api", "dashboard", "stats"])) == ["api", "dashboard", "stats"]
  {
    SegmentsJoin(["api", "dashboard", "stats"]);
  }

  // ---------------------------------------------------------------------
  // Which route each path reaches

  /** The route templates, each as its first two literals and the rest. */
  lemma RouteShapes()
    ensures Server.RegisterRoute.pattern == [Lit("api"), Lit("auth")] + [Lit("register")]
    ensures Server.LoginRoute.pattern == [Lit("api"), Lit("auth")] + [Lit("login")]
    ensures Server.MeRoute.pattern == [Lit("api"), Lit("auth")] + [Lit("me")]
    ensures Server.FilesRoute.pattern == [Lit("api"), Lit("files")] + []
    ensures Server.DeleteRoute.pattern == [Lit("api"), Lit("files")] + [Param("file_id")]
    ensures Server.DownloadRoute.pattern == [Lit("api"), Lit("files")] + [Param("file_id"), Lit("download")]
    ensures Server.UploadRoute.pattern == [Lit("api")] + ([Lit("files")] + ([Lit("upload")] + []))
    ensures Server.StatsRoute.pattern == [Lit("api")] + ([Lit("dashboard")] + ([Lit("stats")] + []))
  {
  }

  /** The routes in table order, with their verbs. */
  lemma RouteTable()
    ensures |Server.Routes| == 9
    ensures Server.Routes[0] == Server.RegisterRoute && Server.Routes[0].verb == POST
    ensures Server.Routes[1] == Server.LoginRoute && Server.Routes[1].verb == POST
    ensures Server.Routes[2] == Server.MeRoute && Server.Routes[2].verb == GET
    ensures Server.Routes[3] == Server.UploadRoute && Server.Routes[3].verb == POST
    ensures Server.Routes[4] == Server.FilesRoute && Server.Routes[4].verb == GET
    ensures Server.Routes[5] == Server.DeleteRoute && Server.Routes[5].verb == DELETE
    ensures Server.Routes[6] == Server.DownloadRoute && Server.Routes[6].verb == GET
    ensures Server.Routes[7] == Server.StatsRoute && Server.Routes[7].verb == GET
  {
  }

  /** The delete route binds the id. */
  lemma DeleteRouteMatches(fileId: string)
    requires fileId != ""
    ensures Match(Server.DeleteRoute.pattern, ["api", "files", fileId]) == Some(map["file_id" := fileId])
  {
    var e: seq<Seg>, none: seq<string> := [], [];
    MatchParam("file_id", e, fileId, none, map[]);
    MatchLit("files", [Param("file_id")] + e, "files", [fileId] + none);
    MatchLit("api", [Lit("files")] + ([Param("file_id")] + e), "api", ["files"] + ([fileId] + none));
    assert Server.DeleteRoute.pattern == [Lit("api")] + ([Lit("files")] + ([Param("file_id")] + e));
    assert ["api", "files", fileId] == ["api"] + (["files"] + ([fileId] + none));
  }

  /** A DELETE of /api/files/<id> reaches `delete_file` with `file_id` = id,
      for any non-empty id without a '/'. */
  lemma DeleteReachesHandler(fileId: string)
    requires fileId != "" && '/' !in fileId
    ensures Dispatch(Server.Routes, DELETE, ["api", "files", fileId]) == Some((5, map["file_id" := fileId]))
  {
    DeleteRouteMatches(fileId);
    RouteTable();
    DispatchFirst(Server.Routes, DELETE, ["api", "files", fileId], 5, map["file_id" := fileId]);
  }

  /** The download route binds the id. */
  lemma DownloadRouteMatches(fileId: string)
    requires fileId != ""
    ensures Match(Server.DownloadRoute.pattern, ["api", "files", fileId, "download"]) == Some(map["file_id" := fileId])
  {
    var e: seq<Seg>, none: seq<string> := [], [];
    MatchLit("download", e, "download", none);
    MatchParam("file_id", [Lit("download")] + e, fileId, ["download"] + none, map[]);
    MatchLit("files", [Param("file_id")] + ([Lit("download")] + e), "files", [fileId] + (["download"] + none));
    MatchLit("api", [Lit("files")] + ([Param("file_id")] + ([Lit("download")] + e)),
             "api", ["files"] + ([fileId] + (["download"] + none)));
    assert Server.DownloadRoute.pattern == [Lit("api")] + ([Lit("files")] + ([Param("file_id")] + ([Lit("download")] + e)));
    assert ["api", "files", fileId, "download"] == ["api"] + (["files"] + ([fileId] + (["download"] + none)));
  }

  /** GET routes before the download route reject its path. */
  lemma DownloadEarlierMiss(fileId: string)
    ensures Match(Server.MeRoute.pattern, ["api", "files", fileId, "download"]) == None
    ensures Match(Server.FilesRoute.pattern, ["api", "files", fileId, "download"]) == None
  {
    RouteShapes();
    var more := [fileId, "download"];
    assert ["api", "files", fileId, "download"] == ["api", "files"] + more;
    MatchSecondMismatch("api", "auth", [Lit("me")], "files", more);
    var e: seq<Seg> := [];
    assert [Lit("api"), Lit("files")] + e == [Lit("api")] + ([Lit("files")] + e);
    assert ["api", "files"] + more == ["api"] + (["files"] + more);
    MatchLit("api", [Lit("files")] + e, "api", ["files"] + more);
    MatchLit("files", e, "files", more);
  }

  /** A GET of /api/files/<id>/download reaches `download_file`. */
  lemma DownloadReachesHandler(fileId: string)
    requires fileId != "" && '/' !in fileId
    ensures Dispatch(Server.Routes, GET, ["api", "files", fileId, "download"]) == Some((6, map["file_id" := fileId]))
  {
    DownloadRouteMatches(fileId);
    DownloadEarlierMiss(fileId);
    RouteTable();
    DispatchFirst(Server.Routes, GET, ["api", "files", fileId, "download"], 6, map["file_id" := fileId]);
  }

  /** The upload route accepts its path, binding nothing. */
  lemma UploadRouteMatches()
    ensures Match(Server.UploadRoute.pattern, ["api", "files", "upload"]) == Some(map[])
  {
    RouteShapes();
    var e: seq<Seg>, none: seq<string> := [], [];
    MatchLit("upload", e, "upload", none);
    MatchLit("files", [Lit("upload")] + e, "files", ["upload"] + none);
    MatchLit("api", [Lit("files")] + ([Lit("upload")] + e), "api", ["files"] + (["upload"] + none));
    assert ["api", "files", "upload"] == ["api"] + (["files"] + (["upload"] + none));
  }

  /** POST routes before the upload route reject its path. */
  lemma UploadEarlierMiss()
    ensures Match(Server.RegisterRoute.pattern, ["api", "files", "upload"]) == None
    ensures Match(Server.LoginRoute.pattern, ["api", "files", "upload"]) == None
  {
    RouteShapes();
    assert ["api", "files", "upload"] == ["api", "files"] + ["upload"];
    MatchSecondMismatch("api", "auth", [Lit("register")], "files", ["upload"]);
    MatchSecondMismatch("api", "auth", [Lit("login")], "files", ["upload"]);
  }

  /** A POST of /api/files/upload reaches `upload_file`, which reads the very
      form field the frontend fills. */
  lemma UploadReachesHandler()
    ensures Dispatch(Server.Routes, POST, ["api", "files", "upload"]) == Some((3, map[]))
    ensures Api.UploadField == Server.UploadParameter
  {
    UploadRouteMatches();
    UploadEarlierMiss();
    RouteTable();
    DispatchFirst(Server.Routes, POST, ["api", "files", "upload"], 3, map[]);
  }

  /** The file list route accepts its path; the one GET route before it does not. */
  lemma FilesRouteMatches()
    ensures Match(Server.FilesRoute.pattern, ["api", "files"]) == Some(map[])
    ensures Match(Server.MeRoute.pattern, ["api", "files"]) == None
  {
    RouteShapes();
    var e: seq<Seg>, none: seq<string> := [], [];
    MatchLit("files", e, "files", none);
    MatchLit("api", [Lit("files")] + e, "api", ["files"] + none);
    assert [Lit("api"), Lit("files")] + e == [Lit("api")] + ([Lit("files")] + e);
    assert ["api", "files"] == ["api"] + (["files"] + none);
    assert ["api", "files"] == ["api", "files"] + none;
    MatchSecondMismatch("api", "auth", [Lit("me")], "files", none);
  }

  /** A GET of /api/files reaches `get_user_files`. */
  lemma FilesReachesHandler()
    ensures Dispatch(Server.Routes, GET, ["api", "files"]) == Some((4, map[]))
  {
    FilesRouteMatches();
    RouteTable();
    DispatchFirst(Server.Routes, GET, ["api", "files"], 4, map[]);
  }

  /** The stats route accepts its path; the GET routes before it do not. */
  lemma StatsRouteMatches()
    ensures Match(Server.StatsRoute.pattern, ["api", "dashboard", "stats"]) == Some(map[])
    ensures Match(Server.MeRoute.pattern, ["api", "dashboard", "stats"]) == None
    ensures Match(Server.FilesRoute.pattern, ["api", "dashboard", "stats"]) == None
    ensures Match(Server.DownloadRoute.pattern, ["api", "dashboard", "stats"]) == None
  {
    RouteShapes();
    var e: seq<Seg>, none: seq<string> := [], [];
    MatchLit("stats", e, "stats", none);
    MatchLit("dashboard", [Lit("stats")] + e, "dashboard", ["stats"] + none);
    MatchLit("api", [Lit("dashboard")] + ([Lit("stats")] + e), "api", ["dashboard"] + (["stats"] + none));
    assert ["api", "dashboard", "stats"] == ["api"] + (["dashboard"] + (["stats"] + none));
    assert ["api", "dashboard", "stats"] == ["api", "dashboard"] + ["stats"];
    MatchSecondMismatch("api", "auth", [Lit("me")], "dashboard", ["stats"]);
    MatchSecondMismatch("api", "files", [], "dashboard", ["stats"]);
    MatchSecondMismatch("api", "files", [Param("file_id"), Lit("download")], "dashboard", ["stats"]);
  }

  /** A GET of /api/dashboard/stats reaches `get_dashboard_stats`. */
  lemma StatsReachesHandler()
    ensures Dispatch(Server.Routes, GET, ["api", "dashboard", "stats"]) == Some((7, map[]))
  {
    StatsRouteMatches();
    RouteTable();
    DispatchFirst(Server.Routes, GET, ["api", "dashboard", "stats"], 7, map[]);
  }
}
