/** The already-parsed shape of one search result as the renderer reads it:
    `post.title`, `post.selftext`, `post.url`, `post.subreddit`, `post.score`
    and the optional `post.preview.images[i].source.url`. */
module Posts {
  import opened Wrappers

  datatype ImageSource = ImageSource(url: string)

  datatype Image = Image(source: ImageSource)

  datatype Preview = Preview(images: seq<Image>)

  datatype Post = Post(
    title: string,
    selftext: string,
    url: string,
    subreddit: string,
    score: int,
    preview: Option<Preview>)
}
