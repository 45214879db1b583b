/** The Post document as backend/controllers/post.js uses it. The Post schema itself is not part
    of this model, so its free fields are kept as the JSON values the controller passed in. */
module PostModel {
  import opened Ids
  import opened Json

  /** The keys `createPost` and `updatePost` copy from the body. */
  const Fields: set<string> := {"title", "content", "price", "category", "status"}

  /** `fields` holds those of `title`, `content`, `price`, `category` and `status` that were
      given; `images` the paths under `/posts/`. */
  datatype Post = Post(fields: Object, images: seq<string>, creator: Id, createdAt: nat)
}
