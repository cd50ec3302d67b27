/** The records of the index (internal/index/types.go). */
module IndexTypes {

  datatype SourceFile = SourceFile(relativePath: string, content: string, sizeBytes: int)

  datatype DocumentRecord = DocumentRecord(path: string, contentHash: string, sizeBytes: int)

  datatype ChunkRecord = ChunkRecord(id: string, documentPath: string, ordinal: int, startLine: int, endLine: int,
                                     content: string, contentHash: string)

  datatype VectorRecord = VectorRecord(chunkId: string, dimensions: int, embedding: seq<bv8>)

  datatype SearchResult = SearchResult(chunkId: string, documentPath: string, ordinal: int, startLine: int,
                                       endLine: int, content: string, score: real)
}
