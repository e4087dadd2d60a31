/** The fixtures of frontend/src/utils/mockData.js: the six files and the
    counters the dashboard shows until it talks to the backend. */
module MockData {
  /** One file row; `kind` is the fixture's `type` field. */
  datatype MockFile = MockFile(id: string, name: string, size: nat, kind: string, modified: string,
                               isShared: bool)

  datatype MockStats = MockStats(totalFiles: nat, totalFolders: nat, sharedFiles: nat, recentUploads: nat)

  const MockFiles: seq<MockFile> := [
    MockFile("1", "Project Presentation.pptx", 15728640, "presentation", "2 hours ago", false),
    MockFile("2", "Vacation Photos.zip", 524288000, "archive", "1 day ago", true),
    MockFile("3", "Budget Spreadsheet.xlsx", 2097152, "spreadsheet", "3 days ago", false),
    MockFile("4", "Meeting Recording.mp4", 1073741824, "video", "1 week ago", false),
    MockFile("5", "Team Documents", 0, "folder", "2 weeks ago", true),
    MockFile("6", "Profile Picture.jpg", 5242880, "image", "1 month ago", false)
  ]

  const Stats: MockStats := MockStats(156, 12, 23, 8)
}
